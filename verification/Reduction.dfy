/**
 Transitive reduction on the condensation of a graph.

 Which edges survive is first described without the condensation (`Survives`), and a graph
 with exactly those edges is shown to keep the reachability relation. The program is then
 shown to select exactly those edges.
 */
module Reduction {
  import opened Graphs
  import opened Order
  import opened Tarjan

  // ----- reachable -------------------------------------------------------------------

  ghost predicate ReachedFrom(adj: Graph, starts: set<Node>, v: Node) {
    exists s :: s in starts && Reach(adj, s, v)
  }

  lemma ReachedFromStart(adj: Graph, starts: set<Node>, s: Node)
    requires s in starts
    ensures ReachedFrom(adj, starts, s)
  {
    ReachRefl(adj, s);
  }

  lemma ReachedFromSucc(adj: Graph, starts: set<Node>, u: Node, v: Node)
    requires ReachedFrom(adj, starts, u) && v in Succ(adj, u)
    ensures ReachedFrom(adj, starts, v)
  {
    var s :| s in starts && Reach(adj, s, u);
    ReachEdge(adj, u, v);
    ReachTrans(adj, s, u, v);
  }

  lemma ReachedInClosed(adj: Graph, starts: set<Node>, seen: set<Node>, v: Node)
    requires starts <= seen && ReachedFrom(adj, starts, v)
    requires forall u :: u in seen ==> Succ(adj, u) <= seen
    ensures v in seen
  {
    var s :| s in starts && Reach(adj, s, v);
    ReachStaysInside(adj, seen, s, v);
  }

  /** Every node there is to visit. */
  lemma Universe(adj: Graph, starts: set<Node>) returns (all: set<Node>)
    ensures starts <= all && forall u :: Succ(adj, u) <= all
  {
    all := starts + set u, v | u in adj && v in adj[u] :: v;
  }

  /** Everything `seen` or `todo` was reached, and what is seen leads nowhere else. */
  ghost predicate Searched(adj: Graph, starts: set<Node>, seen: set<Node>, todo: set<Node>) {
    && starts <= seen + todo
    && (forall v :: v in seen || v in todo ==> ReachedFrom(adj, starts, v))
    && (forall u :: u in seen ==> Succ(adj, u) <= seen + todo)
  }

  lemma SearchStart(adj: Graph, starts: set<Node>)
    ensures Searched(adj, starts, {}, starts)
  {
    forall s | s in starts
      ensures ReachedFrom(adj, starts, s)
    {
      ReachedFromStart(adj, starts, s);
    }
  }

  lemma SearchStep(adj: Graph, starts: set<Node>, seen: set<Node>, rest: set<Node>, u: Node)
    requires Searched(adj, starts, seen, rest + {u})
    ensures Searched(adj, starts, seen + {u}, rest + Succ(adj, u))
  {
    forall v | v in Succ(adj, u)
      ensures ReachedFrom(adj, starts, v)
    {
      ReachedFromSucc(adj, starts, u, v);
    }
  }

  lemma SearchSkip(adj: Graph, starts: set<Node>, seen: set<Node>, rest: set<Node>, u: Node)
    requires Searched(adj, starts, seen, rest + {u}) && u in seen
    ensures Searched(adj, starts, seen, rest)
  {
  }

  lemma SearchEnd(adj: Graph, starts: set<Node>, seen: set<Node>)
    requires Searched(adj, starts, seen, {})
    ensures forall v :: v in seen <==> ReachedFrom(adj, starts, v)
  {
    forall v | ReachedFrom(adj, starts, v)
      ensures v in seen
    {
      ReachedInClosed(adj, starts, seen, v);
    }
  }

  ghost function Nodes(stack: seq<Node>): set<Node> {
    set v | v in stack
  }

  lemma NodesOfTop(stack: seq<Node>)
    requires stack != []
    ensures Nodes(stack) == Nodes(stack[..|stack| - 1]) + {stack[|stack| - 1]}
  {
    assert stack == stack[..|stack| - 1] + [stack[|stack| - 1]];
  }

  lemma NodesOfPushed(stack: seq<Node>, s: set<Node>)
    ensures Nodes(stack + Descending(s)) == Nodes(stack) + s
  {
  }

  /** `reachable`: depth-first search from `starts`, which need not be nodes of the graph. */
  method Reachable(adj: Graph, starts: set<Node>) returns (seen: set<Node>)
    ensures forall v :: v in seen <==> ReachedFrom(adj, starts, v)
  {
    seen := {};
    var stack := Descending(starts);
    ghost var all := Universe(adj, starts);
    SearchStart(adj, starts);
    assert Nodes(stack) == starts;
    while stack != []
      invariant Nodes(stack) <= all
      invariant Searched(adj, starts, seen, Nodes(stack))
      decreases all - seen, |stack|
    {
      var u := stack[|stack| - 1];
      NodesOfTop(stack);
      stack := stack[..|stack| - 1];
      if u in seen {
        SearchSkip(adj, starts, seen, Nodes(stack), u);
        continue;
      }
      SearchStep(adj, starts, seen, Nodes(stack), u);
      NodesOfPushed(stack, Succ(adj, u));
      seen := seen + {u};
      stack := stack + Descending(Succ(adj, u));
    }
    assert Nodes(stack) == {};
    SearchEnd(adj, starts, seen);
  }

  // ----- what is kept, and why that is enough ----------------------------------------

  /** `w` lies on a way from `u` to `v`, in a component of its own. */
  ghost predicate Between(g: Graph, u: Node, w: Node, v: Node) {
    Reach(g, u, w) && Reach(g, w, v) && !Mutual(g, u, w) && !Mutual(g, w, v)
  }

  /** The edge from `u` to `v` stays inside a component, or no third component lies between. */
  ghost predicate Survives(g: Graph, u: Node, v: Node) {
    Mutual(g, u, v) || forall w :: !Between(g, u, w, v)
  }

  ghost predicate IsReduction(g: Graph, h: Graph) {
    h.Keys == g.Keys && forall u, v :: u in g ==> (v in h[u] <==> v in g[u] && Survives(g, u, v))
  }

  /** The nodes on some way from `u` to `v`. */
  ghost function Interval(g: Graph, u: Node, v: Node): set<Node> {
    set w | w in g && Reach(g, u, w) && Reach(g, w, v)
  }

  lemma ReachInGraph(g: Graph, u: Node, v: Node)
    requires Closed(g) && u in g && Reach(g, u, v)
    ensures v in g
  {
    ReachStaysInside(g, g.Keys, u, v);
  }

  lemma MutualSymmetricTransitive(g: Graph, u: Node, v: Node, w: Node)
    requires Mutual(g, u, v) && Mutual(g, v, w)
    ensures Mutual(g, u, w)
  {
    ReachTrans(g, u, v, w);
    ReachTrans(g, w, v, u);
  }

  /** Inside a component every edge survives, so every path does. */
  lemma ReachInsideComponent(g: Graph, h: Graph, u: Node, v: Node)
    requires Closed(g) && IsReduction(g, h) && u in g && Mutual(g, u, v)
    ensures Reach(h, u, v)
  {
    var p :| PathFromTo(g, p, u, v);
    forall i: nat | i + 1 < |p|
      ensures StepAt(h, p, i)
    {
      PathReach(g, p, i);
      PathReach(g, p, i + 1);
      ReachInGraph(g, u, p[i]);
      assert StepAt(g, p, i);
      ReachTrans(g, p[i + 1], v, u);
      ReachTrans(g, p[i + 1], u, p[i]);
      ReachEdge(g, p[i], p[i + 1]);
    }
    assert PathFromTo(h, p, u, v);
  }

  /** Between a node and one it reaches in another component, with nothing between, an edge crosses. */
  lemma CrossingEdge(g: Graph, u: Node, v: Node) returns (x: Node, y: Node)
    requires Reach(g, u, v) && !Mutual(g, u, v)
    requires forall w :: !Between(g, u, w, v)
    ensures Mutual(g, u, x) && Mutual(g, y, v) && y in Succ(g, x)
  {
    var p :| PathFromTo(g, p, u, v);
    ReachRefl(g, u);
    ReachRefl(g, v);
    var i := 0;
    while Mutual(g, u, p[i + 1])
      invariant 0 <= i < |p| - 1 && Mutual(g, u, p[i])
      decreases |p| - i
    {
      i := i + 1;
    }
    x, y := p[i], p[i + 1];
    PathReach(g, p, i + 1);
    assert !Between(g, u, y, v);
    assert StepAt(g, p, i);
  }

  /** Nothing lies between two nodes if nothing lies between two others of their components. */
  lemma BetweenMoves(g: Graph, u: Node, v: Node, x: Node, y: Node, w: Node)
    requires Mutual(g, u, x) && Mutual(g, y, v) && Between(g, x, w, y)
    ensures Between(g, u, w, v)
  {
    ReachTrans(g, u, x, w);
    ReachTrans(g, w, y, v);
    if Mutual(g, u, w) {
      MutualSymmetricTransitive(g, x, u, w);
    }
    if Mutual(g, w, v) {
      MutualSymmetricTransitive(g, w, v, y);
    }
  }

  lemma IntervalsShrink(g: Graph, u: Node, w: Node, v: Node)
    requires Closed(g) && u in g && Between(g, u, w, v)
    ensures w in g
    ensures Interval(g, u, w) < Interval(g, u, v) && Interval(g, w, v) < Interval(g, u, v)
  {
    ReachInGraph(g, u, w);
    ReachTrans(g, u, w, v);
    ReachInGraph(g, u, v);
    ReachRefl(g, u);
    ReachRefl(g, v);
    forall x | x in Interval(g, u, w)
      ensures x in Interval(g, u, v)
    {
      ReachTrans(g, x, w, v);
    }
    forall x | x in Interval(g, w, v)
      ensures x in Interval(g, u, v)
    {
      ReachTrans(g, u, w, x);
    }
    assert v in Interval(g, u, v) && v !in Interval(g, u, w);
    assert u in Interval(g, u, v) && u !in Interval(g, w, v);
  }

  /** Dropping the edges that do not survive loses no way between two nodes. */
  lemma {:induction false} ReductionReaches(g: Graph, h: Graph, u: Node, v: Node)
    requires Closed(g) && IsReduction(g, h) && u in g && Reach(g, u, v)
    ensures Reach(h, u, v)
    decreases Interval(g, u, v)
  {
    if Mutual(g, u, v) {
      ReachInsideComponent(g, h, u, v);
    } else if w :| Between(g, u, w, v) {
      IntervalsShrink(g, u, w, v);
      ReductionReaches(g, h, u, w);
      ReductionReaches(g, h, w, v);
      ReachTrans(h, u, w, v);
    } else {
      var x, y := CrossingEdge(g, u, v);
      forall w
        ensures !Between(g, x, w, y)
      {
        if Between(g, x, w, y) {
          BetweenMoves(g, u, v, x, y, w);
        }
      }
      ReachInGraph(g, u, x);
      ReachInGraph(g, x, y) by {
        ReachEdge(g, x, y);
      }
      ReachEdge(h, x, y);
      ReachInsideComponent(g, h, u, x);
      ReachInsideComponent(g, h, y, v);
      ReachTrans(h, u, x, y);
      ReachTrans(h, u, y, v);
    }
  }

  /** A reduction has exactly the reachability relation of its graph. */
  lemma ReductionPreservesReach(g: Graph, h: Graph, u: Node, v: Node)
    requires Closed(g) && IsReduction(g, h)
    ensures Reach(h, u, v) <==> Reach(g, u, v)
  {
    if Reach(h, u, v) {
      ReachMonotone(h, g, u, v);
    }
    if Reach(g, u, v) {
      if u in g {
        ReductionReaches(g, h, u, v);
      } else {
        if u != v {
          var w := FirstStep(g, u, v);
        }
        ReachRefl(h, u);
      }
    }
  }

  // ----- the condensation ------------------------------------------------------------

  /** `comp` names every component by one of its nodes. */
  ghost predicate IsComponentMap(g: Graph, comp: map<Node, Node>) {
    && comp.Keys == g.Keys
    && (forall u :: u in g ==> comp[u] in g && Mutual(g, u, comp[u]))
    && (forall u, v :: u in g && v in g ==> (comp[u] == comp[v] <==> Mutual(g, u, v)))
  }

  /** An edge out of one of `from` leads from component `c` to component `d`. */
  ghost predicate LinkedFrom(g: Graph, comp: map<Node, Node>, from: set<Node>, c: Node, d: Node)
    requires Closed(g) && comp.Keys == g.Keys && from <= g.Keys
  {
    exists u, v :: u in from && v in g[u] && comp[u] == c && comp[v] == d
  }

  ghost predicate Linked(g: Graph, comp: map<Node, Node>, c: Node, d: Node)
    requires Closed(g) && comp.Keys == g.Keys
  {
    LinkedFrom(g, comp, g.Keys, c, d)
  }

  /** `cadj` holds the components of `from` and the links between components due to `from`. */
  ghost predicate Condenses(g: Graph, comp: map<Node, Node>, from: set<Node>, cadj: Graph)
    requires Closed(g) && comp.Keys == g.Keys && from <= g.Keys
  {
    && (forall u :: u in from ==> comp[u] in cadj)
    && (forall c :: c in cadj ==> exists u :: u in from && comp[u] == c)
    && (forall c, d {:trigger LinkedFrom(g, comp, from, c, d)} {:trigger d in cadj[c]} ::
          c in cadj ==> (d in cadj[c] <==> c != d && LinkedFrom(g, comp, from, c, d)))
  }

  ghost predicate IsCondensation(g: Graph, comp: map<Node, Node>, cadj: Graph)
    requires Closed(g) && comp.Keys == g.Keys
  {
    Condenses(g, comp, g.Keys, cadj)
  }

  lemma LinkedReach(g: Graph, comp: map<Node, Node>, c: Node, d: Node)
    requires Closed(g) && IsComponentMap(g, comp) && Linked(g, comp, c, d)
    ensures Reach(g, c, d)
  {
    var u, v :| u in g && v in g[u] && comp[u] == c && comp[v] == d;
    ReachEdge(g, u, v);
    ReachTrans(g, c, u, v);
    ReachTrans(g, c, v, d);
  }

  /** A path of components follows paths of the graph. */
  lemma {:induction false} CondensedPath(g: Graph, comp: map<Node, Node>, cadj: Graph, p: seq<Node>)
    requires Closed(g) && IsComponentMap(g, comp) && IsCondensation(g, comp, cadj) && IsPath(cadj, p)
    ensures Reach(g, p[0], p[|p| - 1])
  {
    if |p| == 1 {
      ReachRefl(g, p[0]);
    } else {
      var q := p[1..];
      forall i: nat | i + 1 < |q|
        ensures StepAt(cadj, q, i)
      {
        assert StepAt(cadj, p, i + 1);
      }
      CondensedPath(g, comp, cadj, q);
      assert StepAt(cadj, p, 0);
      LinkedReach(g, comp, p[0], p[1]);
      ReachTrans(g, p[0], p[1], p[|p| - 1]);
    }
  }

  /** A path of the graph passes through linked components. */
  lemma {:induction false} ExpandedPath(g: Graph, comp: map<Node, Node>, cadj: Graph, p: seq<Node>)
    requires Closed(g) && IsComponentMap(g, comp) && IsCondensation(g, comp, cadj)
    requires IsPath(g, p) && p[0] in g
    ensures p[|p| - 1] in g && Reach(cadj, comp[p[0]], comp[p[|p| - 1]])
  {
    if |p| == 1 {
      ReachRefl(cadj, comp[p[0]]);
    } else {
      var q := p[1..];
      forall i: nat | i + 1 < |q|
        ensures StepAt(g, q, i)
      {
        assert StepAt(g, p, i + 1);
      }
      assert StepAt(g, p, 0);
      ExpandedPath(g, comp, cadj, q);
      var c, d := comp[p[0]], comp[p[1]];
      assert Linked(g, comp, c, d);
      if c != d {
        ReachEdge(cadj, c, d);
        ReachTrans(cadj, c, d, comp[p[|p| - 1]]);
      }
    }
  }

  lemma CondensedReach(g: Graph, comp: map<Node, Node>, cadj: Graph, u: Node, v: Node)
    requires Closed(g) && IsComponentMap(g, comp) && IsCondensation(g, comp, cadj) && u in g && v in g
    ensures Reach(cadj, comp[u], comp[v]) <==> Reach(g, u, v)
  {
    if Reach(cadj, comp[u], comp[v]) {
      var p :| PathFromTo(cadj, p, comp[u], comp[v]);
      CondensedPath(g, comp, cadj, p);
      ReachTrans(g, u, comp[u], comp[v]);
      ReachTrans(g, u, comp[v], v);
    }
    if Reach(g, u, v) {
      var p :| PathFromTo(g, p, u, v);
      ExpandedPath(g, comp, cadj, p);
    }
  }

  /** Another successor component of `c` leads on to `d`. */
  ghost predicate Detour(cadj: Graph, c: Node, o: Node, d: Node) {
    o in Succ(cadj, c) && o != d && Reach(cadj, o, d)
  }

  /** Something lies between two nodes exactly if their components have a detour. */
  lemma DetourMeansBetween(g: Graph, comp: map<Node, Node>, cadj: Graph, u: Node, v: Node, o: Node)
    requires Closed(g) && IsComponentMap(g, comp) && IsCondensation(g, comp, cadj) && u in g && v in g
    requires Detour(cadj, comp[u], o, comp[v])
    ensures Between(g, u, o, v)
  {
    var x, y :| x in g && y in g[x] && comp[x] == comp[u] && comp[y] == o;
    assert comp[o] == o by {
      assert Mutual(g, y, o);
    }
    ReachEdge(cadj, comp[u], o);
    CondensedReach(g, comp, cadj, u, o);
    CondensedReach(g, comp, cadj, o, v);
  }

  lemma BetweenMeansDetour(g: Graph, comp: map<Node, Node>, cadj: Graph, u: Node, v: Node, w: Node) returns (o: Node)
    requires Closed(g) && IsComponentMap(g, comp) && IsCondensation(g, comp, cadj) && u in g && v in g
    requires Between(g, u, w, v)
    ensures Detour(cadj, comp[u], o, comp[v])
  {
    ReachInGraph(g, u, w);
    CondensedReach(g, comp, cadj, u, w);
    CondensedReach(g, comp, cadj, w, v);
    o := FirstStep(cadj, comp[u], comp[w]);
    ReachTrans(cadj, o, comp[w], comp[v]);
    if o == comp[v] {
      CondensedReach(g, comp, cadj, v, w);
    }
  }

  // ----- the program -----------------------------------------------------------------

  lemma CondenseStep(g: Graph, comp: map<Node, Node>, from: set<Node>, cadj: Graph, u: Node, targets: set<Node>)
    requires Closed(g) && comp.Keys == g.Keys && from <= g.Keys && u in g && u !in from
    requires Condenses(g, comp, from, cadj)
    requires forall d :: d in targets <==> d != comp[u] && exists v :: v in g[u] && comp[v] == d
    ensures Condenses(g, comp, from + {u}, cadj[comp[u] := Succ(cadj, comp[u]) + targets])
  {
    var next := cadj[comp[u] := Succ(cadj, comp[u]) + targets];
    forall c, d | c in next
      ensures d in next[c] <==> c != d && LinkedFrom(g, comp, from + {u}, c, d)
    {
      if LinkedFrom(g, comp, from + {u}, c, d) {
        var x, v :| x in from + {u} && v in g[x] && comp[x] == c && comp[v] == d;
        assert x in from ==> LinkedFrom(g, comp, from, c, d);
      }
      if d in next[c] {
        if c == comp[u] && d in targets {
          assert LinkedFrom(g, comp, from + {u}, c, d);
        } else {
          assert d in cadj[c];
          assert LinkedFrom(g, comp, from, c, d);
        }
      }
    }
    forall c | c in next
      ensures exists x :: x in from + {u} && comp[x] == c
    {
      if c == comp[u] {
        assert u in from + {u};
      } else {
        var x :| x in from && comp[x] == c;
        assert x in from + {u};
      }
    }
  }

  method Condense(adj: Graph, comp: map<Node, Node>) returns (cadj: Graph)
    requires Closed(adj) && comp.Keys == adj.Keys
    ensures IsCondensation(adj, comp, cadj)
  {
    cadj := map[];
    var todo := adj.Keys;
    while todo != {}
      invariant todo <= adj.Keys && Condenses(adj, comp, adj.Keys - todo, cadj)
    {
      var u := Min(todo);
      var targets := set v | v in adj[u] && comp[v] != comp[u] :: comp[v];
      CondenseStep(adj, comp, adj.Keys - todo, cadj, u, targets);
      cadj := cadj[comp[u] := Succ(cadj, comp[u]) + targets];
      assert adj.Keys - (todo - {u}) == adj.Keys - todo + {u};
      todo := todo - {u};
    }
    assert adj.Keys - todo == adj.Keys;
  }

  /** Everything reachable from each component in at least one step. */
  method ReachSets(cadj: Graph) returns (reach: map<Node, set<Node>>)
    ensures reach.Keys == cadj.Keys
    ensures forall c, d :: c in cadj ==> (d in reach[c] <==> ReachedFrom(cadj, cadj[c], d))
  {
    reach := map[];
    var todo := cadj.Keys;
    while todo != {}
      invariant todo <= cadj.Keys && reach.Keys == cadj.Keys - todo
      invariant forall c, d :: c in reach ==> (d in reach[c] <==> ReachedFrom(cadj, cadj[c], d))
    {
      var c := Min(todo);
      var r := Reachable(cadj, cadj[c]);
      reach := reach[c := r];
      todo := todo - {c};
    }
  }

  /** The successors of `c` that no other successor leads to. */
  function Kept(cadj: Graph, reach: map<Node, set<Node>>, c: Node): set<Node>
    requires reach.Keys == cadj.Keys && Closed(cadj) && c in cadj
  {
    set d | d in cadj[c] && !exists o :: o in cadj[c] && o != d && d in reach[o]
  }

  lemma KeptWithoutDetour(cadj: Graph, reach: map<Node, set<Node>>, c: Node, d: Node)
    requires reach.Keys == cadj.Keys && Closed(cadj) && c in cadj
    requires forall c, d :: c in cadj ==> (d in reach[c] <==> ReachedFrom(cadj, cadj[c], d))
    ensures d in Kept(cadj, reach, c) <==> d in cadj[c] && forall o :: !Detour(cadj, c, o, d)
  {
    forall o | o in cadj[c] && o != d
      ensures d in reach[o] <==> Detour(cadj, c, o, d)
    {
      ReachInSteps(cadj, o, d);
    }
  }

  method KeepComponents(cadj: Graph, reach: map<Node, set<Node>>) returns (keep: map<Node, set<Node>>)
    requires reach.Keys == cadj.Keys && Closed(cadj)
    requires forall c, d :: c in cadj ==> (d in reach[c] <==> ReachedFrom(cadj, cadj[c], d))
    ensures keep.Keys == cadj.Keys
    ensures forall c, d :: c in cadj ==> (d in keep[c] <==> d in cadj[c] && forall o :: !Detour(cadj, c, o, d))
  {
    keep := map[];
    var todo := cadj.Keys;
    while todo != {}
      invariant todo <= cadj.Keys && keep.Keys == cadj.Keys - todo
      invariant forall c :: c in keep ==> keep[c] == Kept(cadj, reach, c)
    {
      var c := Min(todo);
      keep := keep[c := Kept(cadj, reach, c)];
      todo := todo - {c};
    }
    forall c, d | c in cadj
      ensures d in keep[c] <==> d in cadj[c] && forall o :: !Detour(cadj, c, o, d)
    {
      KeptWithoutDetour(cadj, reach, c, d);
    }
  }

  /** A different node is reached exactly when it is reached from a successor. */
  lemma ReachInSteps(g: Graph, o: Node, d: Node)
    requires o != d
    ensures Reach(g, o, d) <==> ReachedFrom(g, Succ(g, o), d)
  {
    if Reach(g, o, d) {
      var w := FirstStep(g, o, d);
    }
    if ReachedFrom(g, Succ(g, o), d) {
      var w :| w in Succ(g, o) && Reach(g, w, d);
      ReachEdge(g, o, w);
      ReachTrans(g, o, w, d);
    }
  }

  lemma RepresentativesMap(g: Graph, comp: map<Node, Node>)
    requires Closed(g) && comp.Keys == g.Keys
    requires forall u, v :: u in g && v in g ==> (comp[u] == comp[v] <==> Mutual(g, u, v))
    requires forall u :: u in g ==> IsRepresentative(g, u, comp[u])
    ensures IsComponentMap(g, comp)
  {
    forall u | u in g
      ensures comp[u] in g && Mutual(g, u, comp[u])
    {
      ReachInGraph(g, u, comp[u]);
    }
  }

  lemma CondensationClosed(g: Graph, comp: map<Node, Node>, cadj: Graph)
    requires Closed(g) && IsComponentMap(g, comp) && IsCondensation(g, comp, cadj)
    ensures Closed(cadj)
  {
    forall c, d | c in cadj && d in cadj[c]
      ensures d in cadj
    {
      assert Linked(g, comp, c, d);
    }
  }

  /** An edge between two components survives exactly if there is no detour around it. */
  lemma SurvivesIffNoDetour(g: Graph, comp: map<Node, Node>, cadj: Graph, u: Node, v: Node)
    requires Closed(g) && IsComponentMap(g, comp) && IsCondensation(g, comp, cadj)
    requires u in g && v in g[u] && comp[u] != comp[v]
    ensures Survives(g, u, v) <==> forall o :: !Detour(cadj, comp[u], o, comp[v])
    ensures comp[v] in cadj[comp[u]]
  {
    assert Linked(g, comp, comp[u], comp[v]);
    if o :| Detour(cadj, comp[u], o, comp[v]) {
      DetourMeansBetween(g, comp, cadj, u, v, o);
    }
    if w :| Between(g, u, w, v) {
      var o := BetweenMeansDetour(g, comp, cadj, u, v, w);
    }
  }

  /** The edges of `u` that stay in its component or lead to a kept one. */
  function Selected(g: Graph, comp: map<Node, Node>, keep: map<Node, set<Node>>, u: Node): set<Node>
    requires Closed(g) && comp.Keys == g.Keys && u in g && comp[u] in keep
  {
    set v | v in g[u] && (comp[u] == comp[v] || comp[v] in keep[comp[u]])
  }

  method SelectEdges(adj: Graph, comp: map<Node, Node>, keep: map<Node, set<Node>>) returns (out: Graph)
    requires Closed(adj) && comp.Keys == adj.Keys && forall u :: u in adj ==> comp[u] in keep
    ensures out.Keys == adj.Keys
    ensures forall u :: u in adj ==> out[u] == Selected(adj, comp, keep, u)
  {
    out := map[];
    var todo := adj.Keys;
    while todo != {}
      invariant todo <= adj.Keys && out.Keys == adj.Keys - todo
      invariant forall u :: u in out ==> out[u] == Selected(adj, comp, keep, u)
    {
      var u := Min(todo);
      out := out[u := Selected(adj, comp, keep, u)];
      todo := todo - {u};
    }
  }

  lemma SelectionIsReduction(g: Graph, comp: map<Node, Node>, cadj: Graph, keep: map<Node, set<Node>>, out: Graph)
    requires Closed(g) && IsComponentMap(g, comp) && IsCondensation(g, comp, cadj) && keep.Keys == cadj.Keys
    requires forall c, d :: c in cadj ==> (d in keep[c] <==> d in cadj[c] && forall o :: !Detour(cadj, c, o, d))
    requires out.Keys == g.Keys && forall u :: u in g ==> out[u] == Selected(g, comp, keep, u)
    ensures IsReduction(g, out)
  {
    forall u, v | u in g && v in g[u]
      ensures v in out[u] <==> Survives(g, u, v)
    {
      if comp[u] != comp[v] {
        SurvivesIffNoDetour(g, comp, cadj, u, v);
      }
    }
  }

  /**
   `transitive_reduction`: an edge inside a component is kept; an edge between components is
   kept exactly if no third component lies between its ends. The result has the reachability
   relation of the input.
   */
  method TransitiveReduction(adj: Graph) returns (out: Graph)
    requires Closed(adj)
    ensures IsReduction(adj, out)
    ensures forall u, v :: Reach(out, u, v) <==> Reach(adj, u, v)
  {
    var comp := Sccs(adj);
    RepresentativesMap(adj, comp);
    var cadj := Condense(adj, comp);
    CondensationClosed(adj, comp, cadj);
    var reach := ReachSets(cadj);
    var keep := KeepComponents(cadj, reach);
    out := SelectEdges(adj, comp, keep);
    SelectionIsReduction(adj, comp, cadj, keep, out);
    forall u, v
      ensures Reach(out, u, v) <==> Reach(adj, u, v)
    {
      ReductionPreservesReach(adj, out, u, v);
    }
  }

  // ----- the documented rule ---------------------------------------------------------

  ghost function Without(g: Graph, u: Node, v: Node): Graph
    requires u in g
  {
    g[u := g[u] - {v}]
  }

  /** Another edge joins the components of `u` and `v`. */
  ghost predicate Parallel(g: Graph, u: Node, v: Node, x: Node, y: Node) {
    y in Succ(g, x) && (x != u || y != v) && Mutual(g, u, x) && Mutual(g, y, v)
  }

  /** A way that never ends up in the component of `v` does not use an edge into `v`. */
  lemma {:induction false} AvoidsEdge(g: Graph, u: Node, v: Node, p: seq<Node>)
    requires u in g && IsPath(g, p)
    requires !Reach(g, v, p[|p| - 1]) || !Reach(g, p[0], u)
    ensures Reach(Without(g, u, v), p[0], p[|p| - 1])
  {
    var h := Without(g, u, v);
    forall i: nat | i + 1 < |p|
      ensures StepAt(h, p, i)
    {
      assert StepAt(g, p, i);
      PathReach(g, p, i);
      PathReach(g, p, i + 1);
    }
    assert PathFromTo(h, p, p[0], p[|p| - 1]);
  }

  /**
   The comment on `transitive_reduction` promises to drop an edge whose end is also reached
   another way. For an edge between two components there is another way exactly if a third
   component lies between, or if another edge joins the two: the code drops it only then.
   */
  lemma OtherWayIff(g: Graph, u: Node, v: Node)
    requires Closed(g) && u in g && v in g[u] && !Mutual(g, u, v)
    ensures Reach(Without(g, u, v), u, v) <==> (exists w :: Between(g, u, w, v)) || (exists x, y :: Parallel(g, u, v, x, y))
  {
    var h := Without(g, u, v);
    ReachEdge(g, u, v);
    if w :| Between(g, u, w, v) {
      var p :| PathFromTo(g, p, u, w);
      AvoidsEdge(g, u, v, p);
      var q :| PathFromTo(g, q, w, v);
      AvoidsEdge(g, u, v, q);
      ReachTrans(h, u, w, v);
    } else if x, y :| Parallel(g, u, v, x, y) {
      ParallelWay(g, u, v, x, y);
    } else if Reach(h, u, v) {
      var x, y := CrossingWithout(g, u, v);
      assert Parallel(g, u, v, x, y);
    }
  }

  lemma ParallelWay(g: Graph, u: Node, v: Node, x: Node, y: Node)
    requires u in g && !Mutual(g, u, v) && Reach(g, u, v) && Parallel(g, u, v, x, y)
    ensures Reach(Without(g, u, v), u, v)
  {
    var h := Without(g, u, v);
    var p :| PathFromTo(g, p, u, x);
    if Reach(g, v, x) {
      ReachTrans(g, v, x, u);
    }
    AvoidsEdge(g, u, v, p);
    var q :| PathFromTo(g, q, y, v);
    if Reach(g, y, u) {
      ReachTrans(g, v, y, u);
    }
    AvoidsEdge(g, u, v, q);
    ReachEdge(h, x, y);
    ReachTrans(h, u, x, y);
    ReachTrans(h, u, y, v);
  }

  lemma CrossingWithout(g: Graph, u: Node, v: Node) returns (x: Node, y: Node)
    requires u in g && Reach(Without(g, u, v), u, v) && !Mutual(g, u, v)
    requires forall w :: !Between(g, u, w, v)
    ensures Mutual(g, u, x) && Mutual(g, y, v) && y in Succ(Without(g, u, v), x)
  {
    var h := Without(g, u, v);
    var p :| PathFromTo(h, p, u, v);
    ReachRefl(g, u);
    ReachRefl(g, v);
    var i := 0;
    while Mutual(g, u, p[i + 1])
      invariant 0 <= i < |p| - 1 && Mutual(g, u, p[i])
      decreases |p| - i
    {
      i := i + 1;
    }
    x, y := p[i], p[i + 1];
    PathReach(h, p, i + 1);
    ReachMonotone(h, g, u, y);
    ReachMonotone(h, g, y, v);
    assert !Between(g, u, y, v);
    assert StepAt(h, p, i);
  }

  /**
   So the code follows its comment on an edge between components, dropping it exactly if its
   end is reached another way, unless a parallel edge is the only other way.
   */
  lemma FollowsCommentIff(g: Graph, u: Node, v: Node)
    requires Closed(g) && u in g && v in g[u] && !Mutual(g, u, v)
    ensures (!Survives(g, u, v) <==> Reach(Without(g, u, v), u, v)) <==>
            ((exists x, y :: Parallel(g, u, v, x, y)) ==> exists w :: Between(g, u, w, v))
  {
    OtherWayIff(g, u, v);
  }

  /** Two nodes that use each other and both use a third: both edges to the third are kept. */
  lemma ParallelEdgesKept()
    ensures var g: Graph := map[0 := {1, 2}, 1 := {0, 2}, 2 := {}];
      && Closed(g) && Survives(g, 0, 2) && Survives(g, 1, 2)
      && Reach(Without(g, 0, 2), 0, 2) && Reach(Without(g, 1, 2), 1, 2)
  {
    var g: Graph := map[0 := {1, 2}, 1 := {0, 2}, 2 := {}];
    ReachEdge(g, 0, 1);
    ReachEdge(g, 1, 0);
    ReachRefl(g, 2);
    TwoEdges(Without(g, 0, 2), 0, 1, 2);
    TwoEdges(Without(g, 1, 2), 1, 0, 2);
    forall u, w | u in {0, 1} && Between(g, u, w, 2)
      ensures false
    {
      ReachInGraph(g, u, w);
      ReachRefl(g, u);
    }
  }

  lemma TwoEdges(g: Graph, u: Node, v: Node, w: Node)
    requires v in Succ(g, u) && w in Succ(g, v)
    ensures Reach(g, u, w)
  {
    ReachEdge(g, u, v);
    ReachEdge(g, v, w);
    ReachTrans(g, u, v, w);
  }
}
