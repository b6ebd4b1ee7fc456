/** Directed graphs as adjacency maps, paths and reachability. */
module Graphs {

  /** A node is the rank of its name: names are only compared for equality and order. */
  type Node = nat
  type Graph = map<Node, set<Node>>

  /** Successors of `u`; a node without an entry has none. */
  function Succ(g: Graph, u: Node): set<Node> {
    if u in g then g[u] else {}
  }

  /** Every successor has an entry of its own. */
  ghost predicate Closed(g: Graph) {
    forall u, v :: u in g && v in g[u] ==> v in g
  }

  ghost predicate StepAt(g: Graph, p: seq<Node>, i: nat)
    requires i + 1 < |p|
  {
    p[i + 1] in Succ(g, p[i])
  }

  ghost predicate IsPath(g: Graph, p: seq<Node>) {
    |p| > 0 && forall i: nat :: i + 1 < |p| ==> StepAt(g, p, i)
  }

  ghost predicate PathFromTo(g: Graph, p: seq<Node>, u: Node, v: Node) {
    IsPath(g, p) && p[0] == u && p[|p| - 1] == v
  }

  /** `v` can be reached from `u` in zero or more steps. */
  ghost predicate Reach(g: Graph, u: Node, v: Node) {
    exists p :: PathFromTo(g, p, u, v)
  }

  /** Each of the two nodes reaches the other. */
  ghost predicate Mutual(g: Graph, u: Node, v: Node) {
    Reach(g, u, v) && Reach(g, v, u)
  }

  lemma ReachRefl(g: Graph, u: Node)
    ensures Reach(g, u, u)
  {
    assert PathFromTo(g, [u], u, u);
  }

  lemma ReachEdge(g: Graph, u: Node, v: Node)
    requires v in Succ(g, u)
    ensures Reach(g, u, v)
  {
    assert PathFromTo(g, [u, v], u, v);
  }

  lemma ReachTrans(g: Graph, u: Node, v: Node, w: Node)
    requires Reach(g, u, v) && Reach(g, v, w)
    ensures Reach(g, u, w)
  {
    var p :| PathFromTo(g, p, u, v);
    var q :| PathFromTo(g, q, v, w);
    var r := p + q[1..];
    forall i: nat | i + 1 < |r|
      ensures StepAt(g, r, i)
    {
      if i >= |p| - 1 {
        assert StepAt(g, q, i - |p| + 1);
      } else {
        assert StepAt(g, p, i);
      }
    }
    assert PathFromTo(g, r, u, w);
  }

  /** A set closed under successors contains everything its members reach. */
  lemma ReachStaysInside(g: Graph, s: set<Node>, u: Node, v: Node)
    requires u in s && Reach(g, u, v)
    requires forall x, y :: x in s && y in Succ(g, x) ==> y in s
    ensures v in s
  {
    var p :| PathFromTo(g, p, u, v);
    PathStaysInside(g, s, p);
  }

  lemma {:induction false} PathStaysInside(g: Graph, s: set<Node>, p: seq<Node>)
    requires IsPath(g, p) && p[0] in s
    requires forall x, y :: x in s && y in Succ(g, x) ==> y in s
    ensures forall i :: 0 <= i < |p| ==> p[i] in s
  {
    if |p| > 1 {
      var q := p[..|p| - 1];
      forall i: nat | i + 1 < |q|
        ensures StepAt(g, q, i)
      {
        assert StepAt(g, p, i);
      }
      PathStaysInside(g, s, q);
      assert StepAt(g, p, |p| - 2);
      assert p[|p| - 2] == q[|q| - 1];
    }
  }

  /** Every node of a path is reached from its start and reaches its end. */
  lemma PathReach(g: Graph, p: seq<Node>, i: nat)
    requires IsPath(g, p) && i < |p|
    ensures Reach(g, p[0], p[i]) && Reach(g, p[i], p[|p| - 1])
  {
    var front, back := p[..i + 1], p[i..];
    forall k: nat | k + 1 < |front|
      ensures StepAt(g, front, k)
    {
      assert StepAt(g, p, k);
    }
    forall k: nat | k + 1 < |back|
      ensures StepAt(g, back, k)
    {
      assert StepAt(g, p, i + k);
    }
    assert PathFromTo(g, front, p[0], p[i]);
    assert PathFromTo(g, back, p[i], p[|p| - 1]);
  }

  /** A walk from `u` to a different node leaves `u` by some edge. */
  lemma FirstStep(g: Graph, u: Node, v: Node) returns (w: Node)
    requires Reach(g, u, v) && u != v
    ensures w in Succ(g, u) && Reach(g, w, v)
  {
    var p :| PathFromTo(g, p, u, v);
    w := p[1];
    assert StepAt(g, p, 0);
    PathReach(g, p, 1);
  }

  /** Adding edges keeps every path. */
  lemma ReachMonotone(g: Graph, h: Graph, u: Node, v: Node)
    requires Reach(g, u, v)
    requires forall x, y :: y in Succ(g, x) ==> y in Succ(h, x)
    ensures Reach(h, u, v)
  {
    var p :| PathFromTo(g, p, u, v);
    forall i: nat | i + 1 < |p|
      ensures StepAt(h, p, i)
    {
      assert StepAt(g, p, i);
    }
    assert PathFromTo(h, p, u, v);
  }

  /** `adjacency`: only edges between two different members of `nodes` count. */
  method Adjacency(nodes: set<Node>, edges: seq<(Node, Node)>) returns (adj: Graph)
    ensures adj.Keys == nodes
    ensures forall a, b :: a in nodes ==> (b in adj[a] <==> (a, b) in edges && b in nodes && a != b)
    ensures Closed(adj)
  {
    adj := map n | n in nodes :: {};
    for i := 0 to |edges|
      invariant adj.Keys == nodes
      invariant forall a, b :: a in nodes ==> (b in adj[a] <==> (a, b) in edges[..i] && b in nodes && a != b)
    {
      var (a, b) := edges[i];
      assert edges[..i + 1] == edges[..i] + [(a, b)];
      if a in adj && b in adj && a != b {
        adj := adj[a := adj[a] + {b}];
      }
    }
    assert edges[..|edges|] == edges;
  }
}
