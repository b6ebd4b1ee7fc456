/** Transition output specifications: the branches an action may take, and the duplicate check. */
module OutputSpecs {

  datatype Output =
    | Place(place: nat)
    | Forward(from: nat, to: nat)
    | Timeout(child: Output)
    | And(children: seq<Output>)
    | Xor(children: seq<Output>)

  /** What one branch deposits: a token on a place, or every token consumed from `from`. */
  datatype Leaf = Deposit(place: nat) | Pass(from: nat, to: nat)

  type Branch = seq<Leaf>

  // ----- the branches ----------------------------------------------------------------

  /** Every way a completing action can write; a forward claims its target. */
  function Alternatives(o: Output): seq<Branch>
    decreases o, 1
  {
    match o
    case Place(p) => [[Deposit(p)]]
    case Forward(_, to) => [[Deposit(to)]]
    case Timeout(child) => Alternatives(child)
    case Xor(children) => Union(children)
    case And(children) => Product(children)
  }

  function Union(os: seq<Output>): seq<Branch>
    decreases os, 0
  {
    if os == [] then [] else Union(os[..|os| - 1]) + Alternatives(os[|os| - 1])
  }

  function Product(os: seq<Output>): seq<Branch>
    decreases os, 0
  {
    if os == [] then [[]] else Cross(Product(os[..|os| - 1]), Alternatives(os[|os| - 1]))
  }

  function Cross(xs: seq<Branch>, ys: seq<Branch>): seq<Branch> {
    if xs == [] then [] else Cross(xs[..|xs| - 1], ys) + Prefixed(xs[|xs| - 1], ys)
  }

  function Prefixed(x: Branch, ys: seq<Branch>): (r: seq<Branch>)
    ensures |r| == |ys| && forall i :: 0 <= i < |ys| ==> r[i] == x + ys[i]
  {
    seq(|ys|, i requires 0 <= i < |ys| => x + ys[i])
  }

  lemma {:induction false} InCross(xs: seq<Branch>, ys: seq<Branch>, b: Branch)
    ensures b in Cross(xs, ys) <==> exists x, y :: x in xs && y in ys && b == x + y
  {
    if xs != [] {
      var last := xs[|xs| - 1];
      InCross(xs[..|xs| - 1], ys, b);
      assert xs == xs[..|xs| - 1] + [last];
      if b in Prefixed(last, ys) {
        var i :| 0 <= i < |ys| && Prefixed(last, ys)[i] == b;
        assert last in xs && ys[i] in ys;
      }
      if x, y :| x in xs && y in ys && b == x + y {
        if x == last {
          var i :| 0 <= i < |ys| && ys[i] == y;
          assert Prefixed(last, ys)[i] == b;
        } else {
          assert x in xs[..|xs| - 1];
        }
      }
    }
  }

  lemma {:induction false} CrossEmpty(xs: seq<Branch>, ys: seq<Branch>)
    ensures xs == [] || ys == [] ==> Cross(xs, ys) == []
  {
    if xs != [] {
      CrossEmpty(xs[..|xs| - 1], ys);
    }
  }

  // ----- the duplicate check ---------------------------------------------------------

  function LeafPlace(l: Leaf): nat {
    match l
    case Deposit(p) => p
    case Pass(_, to) => to
  }

  ghost predicate Names(b: Branch, p: nat) {
    exists i :: 0 <= i < |b| && LeafPlace(b[i]) == p
  }

  /** Some place is named twice by the branch. */
  ghost predicate Repeats(b: Branch) {
    exists i, j :: 0 <= i < j < |b| && LeafPlace(b[i]) == LeafPlace(b[j])
  }

  /** Every exclusive choice has something to choose. */
  ghost predicate Choosable(o: Output)
    decreases o
  {
    match o
    case Place(_) => true
    case Forward(_, _) => true
    case Timeout(child) => Choosable(child)
    case Xor(children) => children != [] && forall c :: c in children ==> Choosable(c)
    case And(children) => forall c :: c in children ==> Choosable(c)
  }

  ghost predicate SomeRepeats(bs: seq<Branch>) {
    exists b :: b in bs && Repeats(b)
  }

  /** The places on the leaves of `o`. */
  function LeafPlaces(o: Output): set<nat>
    decreases o, 1
  {
    match o
    case Place(p) => {p}
    case Forward(_, to) => {to}
    case Timeout(child) => LeafPlaces(child)
    case Xor(children) => AllLeafPlaces(children)
    case And(children) => AllLeafPlaces(children)
  }

  function AllLeafPlaces(os: seq<Output>): set<nat>
    decreases os, 0
  {
    if os == [] then {} else AllLeafPlaces(os[..|os| - 1]) + LeafPlaces(os[|os| - 1])
  }

  /** Two children of one `And` share a leaf place, somewhere in `o`. */
  ghost predicate Shares(o: Output)
    decreases o, 1
  {
    match o
    case Place(_) => false
    case Forward(_, _) => false
    case Timeout(child) => Shares(child)
    case Xor(children) => SomeShares(children, false)
    case And(children) => SomeShares(children, true)
  }

  ghost predicate SomeShares(os: seq<Output>, jointly: bool)
    decreases os, 0
  {
    os != [] &&
    var first, last := os[..|os| - 1], os[|os| - 1];
    SomeShares(first, jointly) || Shares(last) || (jointly && AllLeafPlaces(first) * LeafPlaces(last) != {})
  }

  /** A branch of a product names what one of its parts names. */
  lemma NamesSplit(x: Branch, y: Branch, p: nat)
    ensures Names(x + y, p) <==> Names(x, p) || Names(y, p)
  {
    if i :| 0 <= i < |x| && LeafPlace(x[i]) == p {
      assert (x + y)[i] == x[i];
    }
    if i :| 0 <= i < |y| && LeafPlace(y[i]) == p {
      assert (x + y)[|x| + i] == y[i];
    }
  }

  /** A joined branch repeats a place if a part does, or if both parts name one. */
  lemma RepeatsSplit(x: Branch, y: Branch)
    ensures Repeats(x + y) <==> Repeats(x) || Repeats(y) || exists p :: Names(x, p) && Names(y, p)
  {
    var z := x + y;
    if i, j :| 0 <= i < j < |x| && LeafPlace(x[i]) == LeafPlace(x[j]) {
      assert z[i] == x[i] && z[j] == x[j];
    }
    if i, j :| 0 <= i < j < |y| && LeafPlace(y[i]) == LeafPlace(y[j]) {
      assert z[|x| + i] == y[i] && z[|x| + j] == y[j];
    }
    if p :| Names(x, p) && Names(y, p) {
      var i :| 0 <= i < |x| && LeafPlace(x[i]) == p;
      var j :| 0 <= j < |y| && LeafPlace(y[j]) == p;
      assert z[i] == x[i] && z[|x| + j] == y[j];
    }
    if i, j :| 0 <= i < j < |z| && LeafPlace(z[i]) == LeafPlace(z[j]) {
      if j < |x| {
        assert LeafPlace(x[i]) == LeafPlace(x[j]);
      } else if i >= |x| {
        assert LeafPlace(y[i - |x|]) == LeafPlace(y[j - |x|]);
      } else {
        assert Names(x, LeafPlace(z[i])) && LeafPlace(y[j - |x|]) == LeafPlace(z[i]);
      }
    }
  }

  ghost predicate SomeNames(bs: seq<Branch>, p: nat) {
    exists b :: b in bs && Names(b, p)
  }

  lemma UnionSplit(xs: seq<Branch>, ys: seq<Branch>, p: nat)
    ensures SomeNames(xs + ys, p) <==> SomeNames(xs, p) || SomeNames(ys, p)
    ensures SomeRepeats(xs + ys) <==> SomeRepeats(xs) || SomeRepeats(ys)
  {
  }

  lemma CrossNames(xs: seq<Branch>, ys: seq<Branch>, p: nat)
    ensures SomeNames(Cross(xs, ys), p) ==> SomeNames(xs, p) || SomeNames(ys, p)
    ensures xs != [] && ys != [] ==> (SomeNames(Cross(xs, ys), p) <==> SomeNames(xs, p) || SomeNames(ys, p))
    ensures xs != [] && ys != [] ==> Cross(xs, ys) != []
  {
    if b :| b in Cross(xs, ys) && Names(b, p) {
      InCross(xs, ys, b);
      var x, y :| x in xs && y in ys && b == x + y;
      NamesSplit(x, y, p);
    }
    if xs != [] && ys != [] {
      InCross(xs, ys, xs[0] + ys[0]);
      if x :| x in xs && Names(x, p) {
        InCross(xs, ys, x + ys[0]);
        NamesSplit(x, ys[0], p);
      }
      if y :| y in ys && Names(y, p) {
        InCross(xs, ys, xs[0] + y);
        NamesSplit(xs[0], y, p);
      }
    }
  }

  lemma CrossRepeats(xs: seq<Branch>, ys: seq<Branch>)
    ensures SomeRepeats(Cross(xs, ys)) ==>
      SomeRepeats(xs) || SomeRepeats(ys) || exists p :: SomeNames(xs, p) && SomeNames(ys, p)
    ensures xs != [] && ys != [] ==> (SomeRepeats(Cross(xs, ys)) <==>
      SomeRepeats(xs) || SomeRepeats(ys) || exists p :: SomeNames(xs, p) && SomeNames(ys, p))
  {
    if b :| b in Cross(xs, ys) && Repeats(b) {
      InCross(xs, ys, b);
      var x, y :| x in xs && y in ys && b == x + y;
      RepeatsSplit(x, y);
      if p :| Names(x, p) && Names(y, p) {
        assert SomeNames(xs, p) && SomeNames(ys, p);
      }
    }
    if xs != [] && ys != [] {
      if x :| x in xs && Repeats(x) {
        InCross(xs, ys, x + ys[0]);
        RepeatsSplit(x, ys[0]);
      }
      if y :| y in ys && Repeats(y) {
        InCross(xs, ys, xs[0] + y);
        RepeatsSplit(xs[0], y);
      }
      if p :| SomeNames(xs, p) && SomeNames(ys, p) {
        var x :| x in xs && Names(x, p);
        var y :| y in ys && Names(y, p);
        InCross(xs, ys, x + y);
        RepeatsSplit(x, y);
      }
    }
  }

  // ----- the same on the tree, exactly -----------------------------------------------

  /** There is a branch: every `And` offers all its children, every `Xor` one of them. */
  ghost predicate Offers(o: Output)
    decreases o
  {
    match o
    case Place(_) => true
    case Forward(_, _) => true
    case Timeout(child) => Offers(child)
    case Xor(children) => exists c :: c in children && Offers(c)
    case And(children) => forall c :: c in children ==> Offers(c)
  }

  /** Some branch names `p`: it is on a leaf below no `And` that offers nothing. */
  ghost predicate Live(o: Output, p: nat)
    decreases o
  {
    match o
    case Place(q) => p == q
    case Forward(_, to) => p == to
    case Timeout(child) => Live(child, p)
    case Xor(children) => exists c :: c in children && Live(c, p)
    case And(children) => Offers(o) && exists c :: c in children && Live(c, p)
  }

  /** Two children of one `And` that offers something share a place that is live in both. */
  ghost predicate LiveShares(o: Output)
    decreases o, 1
  {
    match o
    case Place(_) => false
    case Forward(_, _) => false
    case Timeout(child) => LiveShares(child)
    case Xor(children) => SomeLiveShares(children, false)
    case And(children) => Offers(o) && SomeLiveShares(children, true)
  }

  ghost predicate SomeLiveShares(os: seq<Output>, jointly: bool)
    decreases os, 0
  {
    os != [] &&
    var first, last := os[..|os| - 1], os[|os| - 1];
    SomeLiveShares(first, jointly) || LiveShares(last) ||
    (jointly && exists p :: Live(last, p) && exists c :: c in first && Live(c, p))
  }

  lemma AllButLast<X>(xs: seq<X>)
    requires xs != []
    ensures forall x :: x in xs <==> x in xs[..|xs| - 1] || x == xs[|xs| - 1]
  {
    assert xs == xs[..|xs| - 1] + [xs[|xs| - 1]];
  }

  lemma {:induction false} LiveIsNamed(o: Output, p: nat)
    ensures Alternatives(o) != [] <==> Offers(o)
    ensures SomeNames(Alternatives(o), p) <==> Live(o, p)
    decreases o, 1
  {
    match o
    case Place(q) =>
      assert Names([Deposit(q)], q) by { assert LeafPlace([Deposit(q)][0]) == q; }
    case Forward(_, to) =>
      assert Names([Deposit(to)], to) by { assert LeafPlace([Deposit(to)][0]) == to; }
    case Timeout(child) => LiveIsNamed(child, p);
    case Xor(children) => UnionNames(children, p);
    case And(children) => ProductNames(children, p);
  }

  lemma {:induction false} UnionNames(os: seq<Output>, p: nat)
    ensures Union(os) != [] <==> exists c :: c in os && Offers(c)
    ensures SomeNames(Union(os), p) <==> exists c :: c in os && Live(c, p)
    decreases os, 0
  {
    if os != [] {
      var first, last := os[..|os| - 1], os[|os| - 1];
      AllButLast(os);
      UnionNames(first, p);
      LiveIsNamed(last, p);
      UnionSplit(Union(first), Alternatives(last), p);
    }
  }

  lemma {:induction false} ProductNames(os: seq<Output>, p: nat)
    ensures Product(os) != [] <==> forall c :: c in os ==> Offers(c)
    ensures SomeNames(Product(os), p) <==> (forall c :: c in os ==> Offers(c)) && exists c :: c in os && Live(c, p)
    decreases os, 0
  {
    if os != [] {
      var first, last := os[..|os| - 1], os[|os| - 1];
      AllButLast(os);
      ProductNames(first, p);
      LiveIsNamed(last, p);
      CrossNames(Product(first), Alternatives(last), p);
      CrossEmpty(Product(first), Alternatives(last));
    }
  }

  /** Read off the tree, without enumerating: some branch names a place twice exactly if `LiveShares`. */
  lemma {:induction false} LiveSharesMeansRepeats(o: Output)
    ensures SomeRepeats(Alternatives(o)) <==> LiveShares(o)
    decreases o, 1
  {
    match o
    case Place(_) =>
    case Forward(_, _) =>
    case Timeout(child) => LiveSharesMeansRepeats(child);
    case Xor(children) => UnionRepeats(children);
    case And(children) => ProductRepeats(children);
  }

  lemma {:induction false} UnionRepeats(os: seq<Output>)
    ensures SomeRepeats(Union(os)) <==> SomeLiveShares(os, false)
    decreases os, 0
  {
    if os != [] {
      var first, last := os[..|os| - 1], os[|os| - 1];
      UnionRepeats(first);
      LiveSharesMeansRepeats(last);
      UnionSplit(Union(first), Alternatives(last), 0);
    }
  }

  lemma {:induction false} ProductRepeats(os: seq<Output>)
    ensures SomeRepeats(Product(os)) <==> (forall c :: c in os ==> Offers(c)) && SomeLiveShares(os, true)
    decreases os, 0
  {
    if os != [] {
      var first, last := os[..|os| - 1], os[|os| - 1];
      AllButLast(os);
      ProductRepeats(first);
      LiveSharesMeansRepeats(last);
      ProductNames(first, 0);
      LiveIsNamed(last, 0);
      CrossRepeats(Product(first), Alternatives(last));
      CrossEmpty(Product(first), Alternatives(last));
      forall p
        ensures SomeNames(Product(first), p) <==> (forall c :: c in first ==> Offers(c)) && exists c :: c in first && Live(c, p)
        ensures SomeNames(Alternatives(last), p) <==> Live(last, p)
      {
        ProductNames(first, p);
        LiveIsNamed(last, p);
      }
    }
  }

  /** Live places are on leaves, and the other way round if every choice has an option. */
  lemma {:induction false} LiveIsLeaf(o: Output, p: nat)
    ensures Live(o, p) ==> p in LeafPlaces(o)
    ensures Choosable(o) ==> Offers(o) && (p in LeafPlaces(o) ==> Live(o, p))
    decreases o, 1
  {
    match o
    case Place(_) =>
    case Forward(_, _) =>
    case Timeout(child) => LiveIsLeaf(child, p);
    case Xor(children) =>
      LiveAreLeaves(children, p);
      assert children != [] ==> children[0] in children;
    case And(children) => LiveAreLeaves(children, p);
  }

  lemma {:induction false} LiveAreLeaves(os: seq<Output>, p: nat)
    ensures (exists c :: c in os && Live(c, p)) ==> p in AllLeafPlaces(os)
    ensures (forall c :: c in os ==> Choosable(c)) ==>
      (forall c :: c in os ==> Offers(c)) && (p in AllLeafPlaces(os) ==> exists c :: c in os && Live(c, p))
    decreases os, 0
  {
    if os != [] {
      AllButLast(os);
      LiveAreLeaves(os[..|os| - 1], p);
      LiveIsLeaf(os[|os| - 1], p);
    }
  }

  lemma {:induction false} LiveSharesIsShares(o: Output)
    ensures LiveShares(o) ==> Shares(o)
    ensures Choosable(o) ==> (Shares(o) ==> LiveShares(o))
    decreases o, 1
  {
    match o
    case Place(_) =>
    case Forward(_, _) =>
    case Timeout(child) => LiveSharesIsShares(child);
    case Xor(children) => SomeLiveSharesIsSomeShares(children, false);
    case And(children) =>
      SomeLiveSharesIsSomeShares(children, true);
      LiveIsLeaf(o, 0);
  }

  lemma {:induction false} SomeLiveSharesIsSomeShares(os: seq<Output>, jointly: bool)
    ensures SomeLiveShares(os, jointly) ==> SomeShares(os, jointly)
    ensures (forall c :: c in os ==> Choosable(c)) ==> (SomeShares(os, jointly) ==> SomeLiveShares(os, jointly))
    decreases os, 0
  {
    if os != [] {
      var first, last := os[..|os| - 1], os[|os| - 1];
      AllButLast(os);
      SomeLiveSharesIsSomeShares(first, jointly);
      LiveSharesIsShares(last);
      forall p
        ensures Live(last, p) && (exists c :: c in first && Live(c, p)) ==> p in AllLeafPlaces(first) * LeafPlaces(last)
        ensures (forall c :: c in os ==> Choosable(c)) && p in AllLeafPlaces(first) * LeafPlaces(last) ==>
          Live(last, p) && exists c :: c in first && Live(c, p)
      {
        LiveAreLeaves(first, p);
        LiveIsLeaf(last, p);
      }
    }
  }

  /** The leaf places are the places some branch names. */
  lemma LeafPlacesAreClaimed(o: Output, p: nat)
    ensures SomeNames(Alternatives(o), p) ==> p in LeafPlaces(o)
    ensures Choosable(o) ==> Alternatives(o) != [] && (p in LeafPlaces(o) ==> SomeNames(Alternatives(o), p))
  {
    LiveIsNamed(o, p);
    LiveIsLeaf(o, p);
  }

  // ----- the program -----------------------------------------------------------------

  /** One pass over the leaves: their places so far, stopping at the first `And` that shares one. */
  method Leaves(o: Output) returns (places: set<nat>, dup: bool)
    ensures dup <==> Shares(o)
    ensures !dup ==> places == LeafPlaces(o)
    decreases o, 1
  {
    match o {
      case Place(p) => return {p}, false;
      case Forward(_, to) => return {to}, false;
      case Timeout(child) => places, dup := Leaves(child);
      case And(children) => places, dup := ChildLeaves(children, true);
      case Xor(children) => places, dup := ChildLeaves(children, false);
    }
  }

  method ChildLeaves(os: seq<Output>, jointly: bool) returns (acc: set<nat>, dup: bool)
    ensures dup <==> SomeShares(os, jointly)
    ensures !dup ==> acc == AllLeafPlaces(os)
    decreases os, 0
  {
    acc := {};
    for i := 0 to |os|
      invariant !SomeShares(os[..i], jointly) && acc == AllLeafPlaces(os[..i])
    {
      var places, shares := Leaves(os[i]);
      assert os[..i + 1][..i] == os[..i];
      if shares || (jointly && acc * places != {}) {
        SharesExtend(os, i + 1, jointly);
        return acc + places, true;
      }
      acc := acc + places;
    }
    assert os[..|os|] == os;
    dup := false;
  }

  lemma {:induction false} SharesExtend(os: seq<Output>, n: nat, jointly: bool)
    requires n <= |os| && SomeShares(os[..n], jointly)
    ensures SomeShares(os, jointly)
  {
    if n < |os| {
      assert os[..|os| - 1][..n] == os[..n];
      SharesExtend(os[..|os| - 1], n, jointly);
    } else {
      assert os[..n] == os;
    }
  }

  /**
   `duplicate_in_branch` in one pass, without enumerating the branches: it misses no branch that
   names a place twice. It agrees with the enumeration exactly if what is shared is shared
   alive, which holds whenever every choice has an option.
   */
  method DuplicateInBranch(o: Output) returns (dup: bool)
    ensures SomeRepeats(Alternatives(o)) ==> dup
    ensures (dup <==> SomeRepeats(Alternatives(o))) <==> (Shares(o) ==> LiveShares(o))
    ensures Choosable(o) ==> (dup <==> SomeRepeats(Alternatives(o)))
  {
    LiveSharesMeansRepeats(o);
    LiveSharesIsShares(o);
    var places;
    places, dup := Leaves(o);
  }

  /** An empty choice beside a duplicate: the pass reports it although there is no branch at all. */
  lemma EmptyChoice()
    ensures var o := And([Place(0), Place(0), Xor([])]);
      Shares(o) && !LiveShares(o) && Alternatives(o) == []
  {
    var a, x := Place(0), Xor([]);
    assert [a, a, x][..2] == [a, a] && [a, a][..1] == [a] && [a][..0] == [];
    assert LeafPlaces(a) == {0} && AllLeafPlaces([a]) == {0};
    assert SomeShares([a, a], true);
    assert x in [a, a, x] && !Offers(x);
    LiveIsNamed(And([a, a, x]), 0);
  }

  lemma {:induction false} HeadPlaces(os: seq<Output>)
    requires os != []
    ensures AllLeafPlaces(os) == LeafPlaces(os[0]) + AllLeafPlaces(os[1..])
  {
    var n := |os| - 1;
    if n == 0 {
      assert os[..n] == [] && os[1..] == [];
    } else {
      HeadPlaces(os[..n]);
      assert os[..n][1..] == os[1..][..n - 1];
    }
  }

  // ----- what an expired timeout deposits --------------------------------------------

  /** The leaves under a timeout; a choice or another timeout there is an error. */
  datatype TimeoutResult = NoTimeout | Leaves(leaves: Branch) | Malformed

  function TimeoutChild(o: Output): TimeoutResult
    decreases o, 1
  {
    match o
    case Place(p) => TimeoutResult.Leaves([Deposit(p)])
    case Forward(from, to) => TimeoutResult.Leaves([Pass(from, to)])
    case And(children) => TimeoutChildren(children)
    case Timeout(_) => Malformed
    case Xor(_) => Malformed
  }

  function TimeoutChildren(os: seq<Output>): TimeoutResult
    decreases os, 0
  {
    if os == [] then TimeoutResult.Leaves([])
    else
      var head := TimeoutChild(os[0]);
      if !head.Leaves? then Malformed
      else
        var tail := TimeoutChildren(os[1..]);
        if !tail.Leaves? then Malformed else TimeoutResult.Leaves(head.leaves + tail.leaves)
  }

  /** `timeout_leaves`: the leaves of the first timeout in `o`. */
  function TimeoutLeaves(o: Output): TimeoutResult
    decreases o, 1
  {
    match o
    case Timeout(child) => TimeoutChild(child)
    case And(children) => FirstTimeout(children)
    case Xor(children) => FirstTimeout(children)
    case Place(_) => NoTimeout
    case Forward(_, _) => NoTimeout
  }

  function FirstTimeout(os: seq<Output>): TimeoutResult
    decreases os, 0
  {
    if os == [] then NoTimeout
    else
      var head := TimeoutLeaves(os[0]);
      if head.NoTimeout? then FirstTimeout(os[1..]) else head
  }
}
