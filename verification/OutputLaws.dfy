/**
 What an output specification lets a firing write, said without the functions that compute it:
 by one branch chosen for every child, and by the nodes of the tree in reading order.
 */
module OutputLaws {
  import opened OutputSpecs

  // ----- a completing action ---------------------------------------------------------

  function Flatten(parts: seq<Branch>): Branch {
    if parts == [] then [] else Flatten(parts[..|parts| - 1]) + parts[|parts| - 1]
  }

  /** An action may write `b`: one child of each `Xor`, every child of each `And`. */
  ghost predicate Writes(o: Output, b: Branch)
    decreases o, 1
  {
    match o
    case Place(p) => b == [Deposit(p)]
    case Forward(_, to) => b == [Deposit(to)]
    case Timeout(child) => Writes(child, b)
    case Xor(children) => exists c :: c in children && Writes(c, b)
    case And(children) => WritesAll(children, b)
  }

  /** `b` is one branch of each of the children, one after the other. */
  ghost predicate WritesAll(os: seq<Output>, b: Branch)
    decreases os, 1
  {
    exists parts :: Joins(os, parts) && Flatten(parts) == b
  }

  /** One branch of each of the children. */
  ghost predicate Joins(os: seq<Output>, parts: seq<Branch>)
    decreases os, 0
  {
    |parts| == |os| && forall i :: 0 <= i < |os| ==> Writes(os[i], parts[i])
  }

  lemma {:induction false} AlternativesAreWrites(o: Output, b: Branch)
    ensures b in Alternatives(o) <==> Writes(o, b)
    decreases o, 1
  {
    match o
    case Place(_) =>
    case Forward(_, _) =>
    case Timeout(child) => AlternativesAreWrites(child, b);
    case Xor(children) => UnionWrites(children, b);
    case And(children) => ProductWrites(children, b);
  }

  lemma {:induction false} UnionWrites(os: seq<Output>, b: Branch)
    ensures b in Union(os) <==> exists c :: c in os && Writes(c, b)
    decreases os, 0
  {
    if os != [] {
      AllButLast(os);
      UnionWrites(os[..|os| - 1], b);
      AlternativesAreWrites(os[|os| - 1], b);
    }
  }

  lemma {:induction false} ProductWrites(os: seq<Output>, b: Branch)
    ensures b in Product(os) <==> WritesAll(os, b)
    decreases os, 0
  {
    if os == [] {
      assert Joins([], []) && Flatten([]) == [];
    } else {
      var first, last := os[..|os| - 1], os[|os| - 1];
      InCross(Product(first), Alternatives(last), b);
      forall x, y
        ensures x in Product(first) && y in Alternatives(last) <==> WritesAll(first, x) && Writes(last, y)
      {
        ProductWrites(first, x);
        AlternativesAreWrites(last, y);
      }
      WritesAllSplit(os, b);
    }
  }

  lemma WritesAllJoin(os: seq<Output>, x: Branch, y: Branch)
    requires os != [] && WritesAll(os[..|os| - 1], x) && Writes(os[|os| - 1], y)
    ensures WritesAll(os, x + y)
  {
    var parts :| Joins(os[..|os| - 1], parts) && Flatten(parts) == x;
    JoinOneMore(os, parts, y);
  }

  lemma WritesAllPart(os: seq<Output>, b: Branch) returns (x: Branch, y: Branch)
    requires os != [] && WritesAll(os, b)
    ensures WritesAll(os[..|os| - 1], x) && Writes(os[|os| - 1], y) && b == x + y
  {
    var parts :| Joins(os, parts) && Flatten(parts) == b;
    var first := parts[..|os| - 1];
    JoinOneLess(os, parts);
    x, y := Flatten(first), parts[|os| - 1];
    assert WritesAll(os[..|os| - 1], x);
  }

  lemma WritesAllSplit(os: seq<Output>, b: Branch)
    requires os != []
    ensures WritesAll(os, b) <==> exists x, y :: WritesAll(os[..|os| - 1], x) && Writes(os[|os| - 1], y) && b == x + y
  {
    var first, last := os[..|os| - 1], os[|os| - 1];
    if x, y :| WritesAll(first, x) && Writes(last, y) && b == x + y {
      WritesAllJoin(os, x, y);
    }
    if WritesAll(os, b) {
      var x, y := WritesAllPart(os, b);
    }
  }

  lemma JoinOneMore(os: seq<Output>, parts: seq<Branch>, y: Branch)
    requires os != [] && Joins(os[..|os| - 1], parts) && Writes(os[|os| - 1], y)
    ensures Joins(os, parts + [y]) && Flatten(parts + [y]) == Flatten(parts) + y
  {
    var first, longer := os[..|os| - 1], parts + [y];
    assert longer[..|parts|] == parts;
    forall i | 0 <= i < |os|
      ensures Writes(os[i], longer[i])
    {
      if i < |parts| {
        assert Writes(first[i], parts[i]);
      }
    }
  }

  lemma JoinOneLess(os: seq<Output>, parts: seq<Branch>)
    requires os != [] && Joins(os, parts)
    ensures Joins(os[..|os| - 1], parts[..|os| - 1]) && Writes(os[|os| - 1], parts[|os| - 1])
  {
    var first, shorter := os[..|os| - 1], parts[..|os| - 1];
    forall i | 0 <= i < |first|
      ensures Writes(first[i], shorter[i])
    {
      assert Writes(os[i], parts[i]);
    }
  }

  // ----- an expired timeout ----------------------------------------------------------

  /** The nodes of a tree in reading order. */
  function Reading(o: Output): seq<Output>
    decreases o, 1
  {
    match o
    case Place(_) => [o]
    case Forward(_, _) => [o]
    case Timeout(child) => [o] + Reading(child)
    case Xor(children) => [o] + ReadingAll(children)
    case And(children) => [o] + ReadingAll(children)
  }

  function ReadingAll(os: seq<Output>): seq<Output>
    decreases os, 0
  {
    if os == [] then [] else Reading(os[0]) + ReadingAll(os[1..])
  }

  /** What the leaves among the nodes deposit, in order; a forward stays a forward. */
  function LeavesAmong(nodes: seq<Output>): Branch {
    if nodes == [] then []
    else
      var rest := LeavesAmong(nodes[1..]);
      match nodes[0]
      case Place(p) => [Deposit(p)] + rest
      case Forward(from, to) => [Pass(from, to)] + rest
      case _ => rest
  }

  lemma {:induction false} LeavesSplit(xs: seq<Output>, ys: seq<Output>)
    ensures LeavesAmong(xs + ys) == LeavesAmong(xs) + LeavesAmong(ys)
  {
    if xs == [] {
      assert xs + ys == ys;
    } else {
      assert (xs + ys)[1..] == xs[1..] + ys;
      LeavesSplit(xs[1..], ys);
    }
  }

  /** A choice or a timeout is among the nodes. */
  ghost predicate Undecided(nodes: seq<Output>) {
    exists n :: n in nodes && (n.Xor? || n.Timeout?)
  }

  /** Under a timeout every leaf is deposited, in order; a choice or timeout there is an error. */
  lemma {:induction false} TimeoutChildExactly(o: Output)
    ensures TimeoutChild(o) ==
      if Undecided(Reading(o)) then Malformed else TimeoutResult.Leaves(LeavesAmong(Reading(o)))
    decreases o, 1
  {
    match o
    case Place(p) => assert LeavesAmong(Reading(o)[1..]) == [];
    case Forward(_, _) => assert LeavesAmong(Reading(o)[1..]) == [];
    case And(children) =>
      TimeoutChildrenExactly(children);
      assert Reading(o)[1..] == ReadingAll(children);
    case Timeout(_) => assert o in Reading(o);
    case Xor(_) => assert o in Reading(o);
  }

  lemma {:induction false} TimeoutChildrenExactly(os: seq<Output>)
    ensures TimeoutChildren(os) ==
      if Undecided(ReadingAll(os)) then Malformed else TimeoutResult.Leaves(LeavesAmong(ReadingAll(os)))
    decreases os, 0
  {
    if os != [] {
      TimeoutChildExactly(os[0]);
      TimeoutChildrenExactly(os[1..]);
      LeavesSplit(Reading(os[0]), ReadingAll(os[1..]));
    }
  }

  /** The timeout at `k` is the first of the nodes that is one. */
  ghost predicate FirstTimeoutAt(nodes: seq<Output>, k: nat) {
    k < |nodes| && nodes[k].Timeout? && forall j :: 0 <= j < k ==> !nodes[j].Timeout?
  }

  lemma {:induction false} TimeoutLeavesOfFirst(o: Output, k: nat)
    ensures TimeoutLeaves(o).NoTimeout? <==> forall n :: n in Reading(o) ==> !n.Timeout?
    ensures FirstTimeoutAt(Reading(o), k) ==> TimeoutLeaves(o) == TimeoutChild(Reading(o)[k].child)
    decreases o, 1
  {
    match o
    case Place(_) =>
    case Forward(_, _) =>
    case Timeout(child) =>
      assert Reading(o)[0] == o;
      TimeoutChildExactly(child);
    case Xor(children) => FirstAmong(o, children, k);
    case And(children) => FirstAmong(o, children, k);
  }

  lemma {:induction false} FirstAmong(o: Output, os: seq<Output>, k: nat)
    requires (o.Xor? || o.And?) && o.children == os
    ensures TimeoutLeaves(o).NoTimeout? <==> forall n :: n in Reading(o) ==> !n.Timeout?
    ensures FirstTimeoutAt(Reading(o), k) ==> TimeoutLeaves(o) == TimeoutChild(Reading(o)[k].child)
    decreases os, 1
  {
    assert Reading(o)[1..] == ReadingAll(os) && Reading(o)[0] == o;
    FirstTimeoutOfFirst(os, if k > 0 then k - 1 else 0);
    if FirstTimeoutAt(Reading(o), k) {
      assert k > 0 && Reading(o)[k] == ReadingAll(os)[k - 1];
      forall j | 0 <= j < k - 1
        ensures !ReadingAll(os)[j].Timeout?
      {
        assert Reading(o)[j + 1] == ReadingAll(os)[j];
      }
    }
  }

  lemma {:induction false} FirstTimeoutOfFirst(os: seq<Output>, k: nat)
    ensures FirstTimeout(os).NoTimeout? <==> forall n :: n in ReadingAll(os) ==> !n.Timeout?
    ensures FirstTimeoutAt(ReadingAll(os), k) ==> FirstTimeout(os) == TimeoutChild(ReadingAll(os)[k].child)
    decreases os, 0
  {
    if os != [] {
      var head, tail := Reading(os[0]), ReadingAll(os[1..]);
      TimeoutLeavesOfFirst(os[0], k);
      FirstTimeoutOfFirst(os[1..], if k >= |head| then k - |head| else 0);
      if FirstTimeoutAt(head + tail, k) {
        if k < |head| {
          assert (head + tail)[k] == head[k];
          forall j | 0 <= j < k
            ensures !head[j].Timeout?
          {
            assert (head + tail)[j] == head[j];
          }
          assert FirstTimeoutAt(head, k) && head[k] in head;
        } else {
          forall n | n in head
            ensures !n.Timeout?
          {
            var j :| 0 <= j < |head| && head[j] == n;
            assert (head + tail)[j] == n;
          }
          forall j | 0 <= j < k - |head|
            ensures !tail[j].Timeout?
          {
            assert (head + tail)[|head| + j] == tail[j];
          }
        }
      }
    }
  }

  lemma SomeFirst(nodes: seq<Output>)
    requires exists n :: n in nodes && n.Timeout?
    ensures exists k: nat :: FirstTimeoutAt(nodes, k)
  {
    var n :| n in nodes && n.Timeout?;
    var j :| 0 <= j < |nodes| && nodes[j] == n;
    var k := 0;
    while !nodes[k].Timeout?
      invariant 0 <= k <= j && forall i :: 0 <= i < k ==> !nodes[i].Timeout?
      decreases j - k
    {
      k := k + 1;
    }
    assert FirstTimeoutAt(nodes, k);
  }

  /**
   What an expired timeout deposits, read off the tree: it belongs to the first timeout in
   reading order, deposits every leaf under it in order, and is an error exactly if a choice or
   another timeout lies under it.
   */
  lemma TimeoutLeavesExactly(o: Output)
    ensures TimeoutLeaves(o).NoTimeout? <==> forall n :: n in Reading(o) ==> !n.Timeout?
    ensures !TimeoutLeaves(o).NoTimeout? ==> exists k: nat ::
      && FirstTimeoutAt(Reading(o), k)
      && var under := Reading(Reading(o)[k].child);
         TimeoutLeaves(o) == if Undecided(under) then Malformed else TimeoutResult.Leaves(LeavesAmong(under))
  {
    TimeoutLeavesOfFirst(o, 0);
    if n :| n in Reading(o) && n.Timeout? {
      SomeFirst(Reading(o));
      var k: nat :| FirstTimeoutAt(Reading(o), k);
      TimeoutLeavesOfFirst(o, k);
      TimeoutChildExactly(Reading(o)[k].child);
    }
  }

  /** A node that puts tokens on `p`. */
  predicate Fills(n: Output, p: nat) {
    n == Output.Place(p) || (n.Forward? && n.to == p)
  }

  ghost predicate SomeFills(nodes: seq<Output>, p: nat) {
    exists n :: n in nodes && Fills(n, p)
  }

  lemma FillsSplit(xs: seq<Output>, ys: seq<Output>, p: nat)
    ensures SomeFills(xs + ys, p) <==> SomeFills(xs, p) || SomeFills(ys, p)
  {
  }

  lemma FillsOne(o: Output, p: nat)
    ensures SomeFills([o], p) <==> Fills(o, p)
  {
    assert o in [o];
  }

  /** The leaf places are those on the leaves in reading order. */
  lemma {:induction false} LeafPlacesAreRead(o: Output, p: nat)
    ensures p in LeafPlaces(o) <==> SomeFills(Reading(o), p)
    decreases o, 1
  {
    FillsOne(o, p);
    match o
    case Place(_) =>
    case Forward(_, _) =>
    case Timeout(child) =>
      LeafPlacesAreRead(child, p);
      FillsSplit([o], Reading(child), p);
    case Xor(children) =>
      AllLeafPlacesAreRead(children, p);
      FillsSplit([o], ReadingAll(children), p);
    case And(children) =>
      AllLeafPlacesAreRead(children, p);
      FillsSplit([o], ReadingAll(children), p);
  }

  lemma {:induction false} AllLeafPlacesAreRead(os: seq<Output>, p: nat)
    ensures p in AllLeafPlaces(os) <==> SomeFills(ReadingAll(os), p)
    decreases os, 0
  {
    if os != [] {
      LeafPlacesAreRead(os[0], p);
      AllLeafPlacesAreRead(os[1..], p);
      HeadPlaces(os);
      FillsSplit(Reading(os[0]), ReadingAll(os[1..]), p);
    }
  }
}
