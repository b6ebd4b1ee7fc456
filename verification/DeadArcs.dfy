/** Arcs on places nothing fills, and what a net loses by dropping them: nothing. */
module DeadArcs {
  import opened OutputSpecs
  import opened OutputLaws
  import opened PetriNets

  datatype DeadArcKind = Read | Inhibitor | Reset

  datatype DeadArc = DeadArc(kind: DeadArcKind, transition: string, place: nat)

  // ----- detection -------------------------------------------------------------------

  /** The places `t` consumes from or can produce into. */
  function Touched(t: Transition): set<nat> {
    (set i | 0 <= i < |t.inputs| :: t.inputs[i].0) + (if t.out.Some? then LeafPlaces(t.out.value) else {})
  }

  ghost predicate IsTouched(net: Net, p: nat) {
    exists i :: 0 <= i < |net.transitions| && p in Touched(net.transitions[i])
  }

  /** Nothing ever puts a token on `p`. */
  ghost predicate Dead(net: Net, environment: set<nat>, marked: set<nat>, p: nat) {
    !IsTouched(net, p) && p !in environment && p !in marked
  }

  function Labelled(kind: DeadArcKind, name: string, ps: seq<nat>): (arcs: seq<DeadArc>)
    ensures |arcs| == |ps|
  {
    seq(|ps|, i requires 0 <= i < |ps| => DeadArc(kind, name, ps[i]))
  }

  /** The test and clear arcs of `t`: read, then inhibitor, then reset. */
  function ArcsOf(t: Transition): seq<DeadArc> {
    Labelled(Read, t.name, t.readArcs) + Labelled(Inhibitor, t.name, t.inhibitors) + Labelled(Reset, t.name, t.resets)
  }

  function AllArcs(ts: seq<Transition>): seq<DeadArc> {
    if ts == [] then [] else AllArcs(ts[..|ts| - 1]) + ArcsOf(ts[|ts| - 1])
  }

  /** The arcs of `arcs` on places of `dead`, in order. */
  ghost function Among(arcs: seq<DeadArc>, dead: iset<nat>): seq<DeadArc> {
    if arcs == [] then []
    else
      var last := arcs[|arcs| - 1];
      Among(arcs[..|arcs| - 1], dead) + if last.place in dead then [last] else []
  }

  ghost function DeadPlaces(net: Net, environment: set<nat>, marked: set<nat>): iset<nat> {
    iset p: nat | Dead(net, environment, marked, p)
  }

  lemma {:induction false} AmongSplit(xs: seq<DeadArc>, ys: seq<DeadArc>, dead: iset<nat>)
    ensures Among(xs + ys, dead) == Among(xs, dead) + Among(ys, dead)
  {
    if ys == [] {
      assert xs + ys == xs;
    } else {
      assert (xs + ys)[..|xs + ys| - 1] == xs + ys[..|ys| - 1];
      AmongSplit(xs, ys[..|ys| - 1], dead);
    }
  }

  lemma {:induction false} NoArcs(ts: seq<Transition>)
    requires forall t :: t in ts ==> t.readArcs == [] && t.inhibitors == [] && t.resets == []
    ensures AllArcs(ts) == []
  {
    if ts != [] {
      NoArcs(ts[..|ts| - 1]);
    }
  }

  /**
   `dead_arcs`: the list of all test and clear arcs, filtered for dead places without changing
   its order.
   */
  method FindDeadArcs(net: Net, environment: set<nat>, marked: set<nat>) returns (found: seq<DeadArc>)
    ensures found == Among(AllArcs(net.transitions), DeadPlaces(net, environment, marked))
    ensures Reports(net, environment, marked, found)
  {
    FoundIsReported(net, environment, marked);
    ghost var dead := DeadPlaces(net, environment, marked);
    if forall t :: t in net.transitions ==> t.readArcs == [] && t.inhibitors == [] && t.resets == [] {
      NoArcs(net.transitions);
      return [];
    }
    var filled := Filled(net);
    found := [];
    for i := 0 to |net.transitions|
      invariant found == Among(AllArcs(net.transitions[..i]), dead)
    {
      var arcs := ArcsOf(net.transitions[i]);
      var reported := Report(arcs, filled + environment + marked, dead);
      found := found + reported;
      AmongSplit(AllArcs(net.transitions[..i]), arcs, dead);
      assert net.transitions[..i + 1][..i] == net.transitions[..i];
    }
    assert net.transitions[..|net.transitions|] == net.transitions;
  }

  /** Every place some transition fills or takes from. */
  method Filled(net: Net) returns (filled: set<nat>)
    ensures forall p :: p in filled <==> IsTouched(net, p)
  {
    filled := {};
    for i := 0 to |net.transitions|
      invariant forall p :: p in filled <==> exists j :: 0 <= j < i && p in Touched(net.transitions[j])
    {
      filled := filled + Touched(net.transitions[i]);
    }
  }

  /** The arcs that are not on a place of `alive`. */
  method Report(arcs: seq<DeadArc>, alive: set<nat>, ghost dead: iset<nat>) returns (found: seq<DeadArc>)
    requires forall p: nat :: p in dead <==> p !in alive
    ensures found == Among(arcs, dead)
  {
    found := [];
    for k := 0 to |arcs|
      invariant found == Among(arcs[..k], dead)
    {
      assert arcs[..k + 1][..k] == arcs[..k];
      if arcs[k].place !in alive {
        found := found + [arcs[k]];
      }
    }
    assert arcs[..|arcs|] == arcs;
  }

  // ----- what is reported, arc by arc ------------------------------------------------

  /** No input takes from `p` and no leaf of an output puts a token on it. */
  ghost predicate Unfed(net: Net, p: nat) {
    forall t :: t in net.transitions ==>
      (forall i :: 0 <= i < |t.inputs| ==> t.inputs[i].0 != p) && (t.out.Some? ==> !SomeFills(Reading(t.out.value), p))
  }

  /** Where an arc stands: arc `j` of its kind on transition `i`. */
  datatype Position = Position(i: nat, kind: DeadArcKind, j: nat)

  function Places(t: Transition, kind: DeadArcKind): seq<nat> {
    match kind case Read => t.readArcs case Inhibitor => t.inhibitors case Reset => t.resets
  }

  predicate IsArc(ts: seq<Transition>, pos: Position) {
    pos.i < |ts| && pos.j < |Places(ts[pos.i], pos.kind)|
  }

  predicate StandsAt(ts: seq<Transition>, pos: Position, a: DeadArc) {
    IsArc(ts, pos) && a == DeadArc(pos.kind, ts[pos.i].name, Places(ts[pos.i], pos.kind)[pos.j])
  }

  predicate KindBefore(a: DeadArcKind, b: DeadArcKind) {
    (a.Read? && !b.Read?) || (a.Inhibitor? && b.Reset?)
  }

  /** By transition, within one read, inhibitor, then reset, within a kind as listed. */
  predicate Before(a: Position, b: Position) {
    a.i < b.i || (a.i == b.i && (KindBefore(a.kind, b.kind) || (a.kind == b.kind && a.j < b.j)))
  }

  ghost predicate Standing(ts: seq<Transition>, dead: iset<nat>, found: seq<DeadArc>, at: seq<Position>) {
    |at| == |found| && forall k :: 0 <= k < |at| ==> StandsAt(ts, at[k], found[k]) && found[k].place in dead
  }

  ghost predicate Ordered(at: seq<Position>) {
    forall k, l :: 0 <= k < l < |at| ==> Before(at[k], at[l])
  }

  predicate OnDead(ts: seq<Transition>, dead: iset<nat>, pos: Position) {
    IsArc(ts, pos) && Places(ts[pos.i], pos.kind)[pos.j] in dead
  }

  /** The arcs of `found` stand at `at`, in order, and every arc on a place of `dead` is among them. */
  ghost predicate Lists(ts: seq<Transition>, dead: iset<nat>, found: seq<DeadArc>, at: seq<Position>) {
    Standing(ts, dead, found, at) && Ordered(at) && forall pos :: OnDead(ts, dead, pos) ==> pos in at
  }

  /** The same of the first `n` arcs of one kind on one transition. */
  ghost predicate ListsSome(t: Transition, i: nat, kind: DeadArcKind, n: nat, dead: iset<nat>, found: seq<DeadArc>, at: seq<Position>)
    requires n <= |Places(t, kind)|
  {
    && |at| == |found|
    && (forall k :: 0 <= k < |at| ==> at[k].i == i && at[k].kind == kind && at[k].j < n)
    && (forall k :: 0 <= k < |at| ==>
          found[k] == DeadArc(kind, t.name, Places(t, kind)[at[k].j]) && found[k].place in dead)
    && (forall k, l :: 0 <= k < l < |at| ==> at[k].j < at[l].j)
    && (forall j :: 0 <= j < n && Places(t, kind)[j] in dead ==> Position(i, kind, j) in at)
  }

  lemma {:induction false} ListKind(t: Transition, i: nat, kind: DeadArcKind, n: nat, dead: iset<nat>) returns (at: seq<Position>)
    requires n <= |Places(t, kind)|
    ensures ListsSome(t, i, kind, n, dead, Among(Labelled(kind, t.name, Places(t, kind)[..n]), dead), at)
  {
    at := [];
    if n > 0 {
      at := ListKind(t, i, kind, n - 1, dead);
      var arcs := Labelled(kind, t.name, Places(t, kind)[..n]);
      assert arcs[..n - 1] == Labelled(kind, t.name, Places(t, kind)[..n - 1]);
      if Places(t, kind)[n - 1] in dead {
        at := at + [Position(i, kind, n - 1)];
      }
    }
  }

  /** The dead ones among all arcs of one kind on one transition. */
  ghost function OfKind(t: Transition, kind: DeadArcKind, dead: iset<nat>): seq<DeadArc> {
    Among(Labelled(kind, t.name, Places(t, kind)), dead)
  }

  lemma ListWhole(t: Transition, i: nat, kind: DeadArcKind, dead: iset<nat>) returns (at: seq<Position>)
    ensures ListsSome(t, i, kind, |Places(t, kind)|, dead, OfKind(t, kind, dead), at)
  {
    at := ListKind(t, i, kind, |Places(t, kind)|, dead);
    assert Places(t, kind)[..|Places(t, kind)|] == Places(t, kind);
  }

  lemma AmongKinds(t: Transition, dead: iset<nat>)
    ensures Among(ArcsOf(t), dead) == OfKind(t, Read, dead) + OfKind(t, Inhibitor, dead) + OfKind(t, Reset, dead)
  {
    var r, h := Labelled(Read, t.name, t.readArcs), Labelled(Inhibitor, t.name, t.inhibitors);
    AmongSplit(r + h, Labelled(Reset, t.name, t.resets), dead);
    AmongSplit(r, h, dead);
  }

  /** On an earlier transition than the last, or on the last and of kind `kind` or one before it. */
  predicate Within(ts: seq<Transition>, kind: DeadArcKind, pos: Position) {
    pos.i + 1 < |ts| || (pos.i + 1 == |ts| && !KindBefore(kind, pos.kind))
  }

  /** `found` lists the arcs of the first transitions, and of the last one those up to `kind`. */
  ghost predicate ListsUpTo(ts: seq<Transition>, kind: DeadArcKind, dead: iset<nat>, found: seq<DeadArc>, at: seq<Position>) {
    && Standing(ts, dead, found, at) && Ordered(at)
    && (forall pos :: pos in at ==> Within(ts, kind, pos))
    && (forall pos :: OnDead(ts, dead, pos) && Within(ts, kind, pos) ==> pos in at)
  }

  lemma StandingJoin(ts: seq<Transition>, dead: iset<nat>, f: seq<DeadArc>, a: seq<Position>, g: seq<DeadArc>, b: seq<Position>)
    requires Standing(ts, dead, f, a) && Standing(ts, dead, g, b)
    ensures Standing(ts, dead, f + g, a + b)
  {
  }

  lemma OrderedJoin(a: seq<Position>, b: seq<Position>)
    requires Ordered(a) && Ordered(b) && forall p, q :: p in a && q in b ==> Before(p, q)
    ensures Ordered(a + b)
  {
    forall k, l | 0 <= k < l < |a + b|
      ensures Before((a + b)[k], (a + b)[l])
    {
      if k < |a| && l >= |a| {
        assert a[k] in a && b[l - |a|] in b;
      }
    }
  }

  lemma SomeStanding(ts: seq<Transition>, kind: DeadArcKind, dead: iset<nat>, r: seq<DeadArc>, more: seq<Position>)
    requires ts != [] && ListsSome(ts[|ts| - 1], |ts| - 1, kind, |Places(ts[|ts| - 1], kind)|, dead, r, more)
    ensures Standing(ts, dead, r, more) && Ordered(more)
    ensures forall pos :: pos in more ==> pos.i == |ts| - 1 && pos.kind == kind
    ensures forall pos :: OnDead(ts, dead, pos) && pos.i == |ts| - 1 && pos.kind == kind ==> pos in more
  {
    forall pos | OnDead(ts, dead, pos) && pos.i == |ts| - 1 && pos.kind == kind
      ensures pos in more
    {
      assert pos == Position(|ts| - 1, kind, pos.j);
    }
  }

  lemma EarlierStanding(ts: seq<Transition>, dead: iset<nat>, found: seq<DeadArc>, at: seq<Position>)
    requires ts != [] && Lists(ts[..|ts| - 1], dead, found, at)
    ensures Standing(ts, dead, found, at) && Ordered(at)
    ensures forall pos :: pos in at ==> pos.i + 1 < |ts|
    ensures forall pos :: OnDead(ts, dead, pos) && pos.i + 1 < |ts| ==> pos in at
  {
    var first := ts[..|ts| - 1];
    forall k | 0 <= k < |at|
      ensures StandsAt(ts, at[k], found[k]) && at[k].i + 1 < |ts|
    {
      assert StandsAt(first, at[k], found[k]);
    }
    forall pos | OnDead(ts, dead, pos) && pos.i + 1 < |ts|
      ensures pos in at
    {
      assert OnDead(first, dead, pos);
    }
  }

  lemma ListReads(ts: seq<Transition>, dead: iset<nat>, found: seq<DeadArc>, at: seq<Position>, r: seq<DeadArc>, more: seq<Position>)
    requires ts != [] && Lists(ts[..|ts| - 1], dead, found, at)
    requires ListsSome(ts[|ts| - 1], |ts| - 1, Read, |Places(ts[|ts| - 1], Read)|, dead, r, more)
    ensures ListsUpTo(ts, Read, dead, found + r, at + more)
  {
    EarlierStanding(ts, dead, found, at);
    SomeStanding(ts, Read, dead, r, more);
    StandingJoin(ts, dead, found, at, r, more);
    OrderedJoin(at, more);
  }

  /** The arcs of the next kind follow. */
  lemma ListNext(ts: seq<Transition>, kind: DeadArcKind, next: DeadArcKind, dead: iset<nat>,
                 found: seq<DeadArc>, at: seq<Position>, r: seq<DeadArc>, more: seq<Position>)
    requires ts != [] && ListsUpTo(ts, kind, dead, found, at)
    requires (kind.Read? && next.Inhibitor?) || (kind.Inhibitor? && next.Reset?)
    requires ListsSome(ts[|ts| - 1], |ts| - 1, next, |Places(ts[|ts| - 1], next)|, dead, r, more)
    ensures ListsUpTo(ts, next, dead, found + r, at + more)
  {
    SomeStanding(ts, next, dead, r, more);
    StandingJoin(ts, dead, found, at, r, more);
    forall p, q | p in at && q in more
      ensures Before(p, q)
    {
      assert Within(ts, kind, p);
    }
    OrderedJoin(at, more);
    forall pos | OnDead(ts, dead, pos) && Within(ts, next, pos)
      ensures pos in at + more
    {
      assert Within(ts, kind, pos) || (pos.i == |ts| - 1 && pos.kind == next);
    }
  }

  lemma AddReads(ts: seq<Transition>, dead: iset<nat>, found: seq<DeadArc>, at: seq<Position>) returns (more: seq<Position>)
    requires ts != [] && Lists(ts[..|ts| - 1], dead, found, at)
    ensures ListsUpTo(ts, Read, dead, found + OfKind(ts[|ts| - 1], Read, dead), more)
  {
    var next := ListWhole(ts[|ts| - 1], |ts| - 1, Read, dead);
    ListReads(ts, dead, found, at, OfKind(ts[|ts| - 1], Read, dead), next);
    more := at + next;
  }

  lemma AddKind(ts: seq<Transition>, kind: DeadArcKind, next: DeadArcKind, dead: iset<nat>, found: seq<DeadArc>, at: seq<Position>)
    returns (more: seq<Position>)
    requires ts != [] && ListsUpTo(ts, kind, dead, found, at)
    requires (kind.Read? && next.Inhibitor?) || (kind.Inhibitor? && next.Reset?)
    ensures ListsUpTo(ts, next, dead, found + OfKind(ts[|ts| - 1], next, dead), more)
  {
    var those := ListWhole(ts[|ts| - 1], |ts| - 1, next, dead);
    ListNext(ts, kind, next, dead, found, at, OfKind(ts[|ts| - 1], next, dead), those);
    more := at + those;
  }

  lemma AddAll(ts: seq<Transition>, dead: iset<nat>, found: seq<DeadArc>, at: seq<Position>)
    returns (before: seq<DeadArc>, all: seq<DeadArc>, more: seq<Position>)
    requires ts != [] && Lists(ts[..|ts| - 1], dead, found, at)
    ensures before == found + OfKind(ts[|ts| - 1], Read, dead) + OfKind(ts[|ts| - 1], Inhibitor, dead)
    ensures all == before + OfKind(ts[|ts| - 1], Reset, dead) && ListsUpTo(ts, Reset, dead, all, more)
  {
    var t := ts[|ts| - 1];
    more := AddReads(ts, dead, found, at);
    more := AddKind(ts, Read, Inhibitor, dead, found + OfKind(t, Read, dead), more);
    before := found + OfKind(t, Read, dead) + OfKind(t, Inhibitor, dead);
    more := AddKind(ts, Inhibitor, Reset, dead, before, more);
    all := before + OfKind(t, Reset, dead);
  }

  lemma Regroup<X>(a: seq<X>, b: seq<X>, c: seq<X>, d: seq<X>)
    ensures a + (b + c + d) == a + b + c + d
  {
  }

  lemma ListTransition(ts: seq<Transition>, dead: iset<nat>, found: seq<DeadArc>, at: seq<Position>) returns (more: seq<Position>)
    requires ts != [] && Lists(ts[..|ts| - 1], dead, found, at)
    ensures Lists(ts, dead, found + Among(ArcsOf(ts[|ts| - 1]), dead), more)
  {
    var t, some, all := ts[|ts| - 1], found, found;
    some, all, more := AddAll(ts, dead, found, at);
    UpToResetIsAll(ts, dead, all, more);
    AmongKinds(t, dead);
    Regroup(found, OfKind(t, Read, dead), OfKind(t, Inhibitor, dead), OfKind(t, Reset, dead));
  }

  lemma UpToResetIsAll(ts: seq<Transition>, dead: iset<nat>, found: seq<DeadArc>, at: seq<Position>)
    requires ListsUpTo(ts, Reset, dead, found, at)
    ensures Lists(ts, dead, found, at)
  {
  }

  lemma {:induction false} ListAll(ts: seq<Transition>, dead: iset<nat>) returns (at: seq<Position>)
    ensures Lists(ts, dead, Among(AllArcs(ts), dead), at)
  {
    if ts == [] {
      at := [];
    } else {
      var first, last := ts[..|ts| - 1], ts[|ts| - 1];
      at := ListAll(first, dead);
      at := ListTransition(ts, dead, Among(AllArcs(first), dead), at);
      AmongSplit(AllArcs(first), ArcsOf(last), dead);
    }
  }

  lemma TouchedIffFed(t: Transition, p: nat)
    ensures p in Touched(t) <==>
      (exists i :: 0 <= i < |t.inputs| && t.inputs[i].0 == p) || (t.out.Some? && SomeFills(Reading(t.out.value), p))
  {
    if t.out.Some? {
      LeafPlacesAreRead(t.out.value, p);
    }
  }

  lemma UntouchedIffUnfed(net: Net, p: nat)
    ensures IsTouched(net, p) <==> !Unfed(net, p)
  {
    forall i | 0 <= i < |net.transitions|
      ensures p in Touched(net.transitions[i]) <==>
        (exists j :: 0 <= j < |net.transitions[i].inputs| && net.transitions[i].inputs[j].0 == p) ||
        (net.transitions[i].out.Some? && SomeFills(Reading(net.transitions[i].out.value), p))
    {
      TouchedIffFed(net.transitions[i], p);
    }
    assert forall i :: 0 <= i < |net.transitions| ==> net.transitions[i] in net.transitions;
  }

  /** Nothing feeds `p`, neither the net nor the environment, and it is not marked. */
  ghost predicate Starved(net: Net, environment: set<nat>, marked: set<nat>, p: nat) {
    Unfed(net, p) && p !in environment && p !in marked
  }

  ghost function StarvedPlaces(net: Net, environment: set<nat>, marked: set<nat>): iset<nat> {
    iset p: nat | Starved(net, environment, marked, p)
  }

  /** One entry for each arc on a starved place, in order; nothing else. */
  ghost predicate Reports(net: Net, environment: set<nat>, marked: set<nat>, found: seq<DeadArc>) {
    exists at :: Lists(net.transitions, StarvedPlaces(net, environment, marked), found, at)
  }

  lemma FoundIsReported(net: Net, environment: set<nat>, marked: set<nat>)
    ensures Reports(net, environment, marked, Among(AllArcs(net.transitions), DeadPlaces(net, environment, marked)))
  {
    var dead := DeadPlaces(net, environment, marked);
    forall p: nat
      ensures p in dead <==> Starved(net, environment, marked, p)
    {
      UntouchedIffUnfed(net, p);
    }
    assert dead == StarvedPlaces(net, environment, marked);
    var at := ListAll(net.transitions, dead);
  }

  /** Some transition of that name has an arc of the kind on `p`. */
  ghost predicate HasArc(ts: seq<Transition>, kind: DeadArcKind, name: string, p: nat) {
    exists t :: t in ts && t.name == name && p in Places(t, kind)
  }

  lemma ListedIsArc(ts: seq<Transition>, dead: iset<nat>, found: seq<DeadArc>, at: seq<Position>, a: DeadArc)
    requires Lists(ts, dead, found, at) && a in found
    ensures HasArc(ts, a.kind, a.transition, a.place) && a.place in dead
  {
    var k :| 0 <= k < |found| && found[k] == a;
    assert StandsAt(ts, at[k], found[k]);
    assert ts[at[k].i] in ts;
  }

  lemma ArcIsListed(ts: seq<Transition>, dead: iset<nat>, found: seq<DeadArc>, at: seq<Position>, a: DeadArc)
    requires Lists(ts, dead, found, at) && HasArc(ts, a.kind, a.transition, a.place) && a.place in dead
    ensures a in found
  {
    var t :| t in ts && t.name == a.transition && a.place in Places(t, a.kind);
    var i :| 0 <= i < |ts| && ts[i] == t;
    var j :| 0 <= j < |Places(t, a.kind)| && Places(t, a.kind)[j] == a.place;
    assert OnDead(ts, dead, Position(i, a.kind, j));
    var k :| 0 <= k < |at| && at[k] == Position(i, a.kind, j);
    assert StandsAt(ts, at[k], found[k]);
  }

  /** Hence an arc is reported exactly if it is an arc of the net and its place is starved. */
  lemma ReportedIff(net: Net, environment: set<nat>, marked: set<nat>, found: seq<DeadArc>, a: DeadArc)
    requires Reports(net, environment, marked, found)
    ensures a in found <==>
      HasArc(net.transitions, a.kind, a.transition, a.place) && Starved(net, environment, marked, a.place)
  {
    var dead := StarvedPlaces(net, environment, marked);
    var at: seq<Position> :| Lists(net.transitions, dead, found, at);
    if a in found {
      ListedIsArc(net.transitions, dead, found, at, a);
    }
    if HasArc(net.transitions, a.kind, a.transition, a.place) && Starved(net, environment, marked, a.place) {
      ArcIsListed(net.transitions, dead, found, at, a);
    }
  }

  // ----- runs beside an environment --------------------------------------------------

  /** The environment puts `k` tokens on its place `p`. */
  ghost predicate Injects(environment: set<nat>, m: Marking, m': Marking, p: nat, k: nat) {
    p in environment && p < |m| && m' == m[p := m[p] + k]
  }

  /** A firing, or the environment putting tokens on one of its places. */
  ghost predicate Move(net: Net, environment: set<nat>, m: Marking, m': Marking)
    requires WellFormed(net)
  {
    Step(net, m, m') || exists p, k :: Injects(environment, m, m', p, k)
  }

  ghost predicate MoveAt(net: Net, environment: set<nat>, run: seq<Marking>, i: nat)
    requires WellFormed(net) && i + 1 < |run|
  {
    Move(net, environment, run[i], run[i + 1])
  }

  ghost predicate OpenRun(net: Net, environment: set<nat>, run: seq<Marking>)
    requires WellFormed(net)
  {
    run != [] && run[0] == net.initial && forall i: nat :: i + 1 < |run| ==> MoveAt(net, environment, run, i)
  }

  /** The place stays empty along the run. */
  ghost predicate Starves(m: Marking, n: nat, dead: set<nat>) {
    |m| == n && forall p :: p in dead && p < n ==> m[p] == 0
  }

  ghost predicate AllDead(net: Net, environment: set<nat>, dead: set<nat>) {
    forall p :: p in dead ==> Dead(net, environment, {}, p) && (p < |net.initial| ==> net.initial[p] == 0)
  }

  lemma {:induction false} TimeoutChildPlaces(o: Output)
    ensures TimeoutChild(o).Leaves? ==> forall p :: Names(TimeoutChild(o).leaves, p) ==> p in LeafPlaces(o)
    decreases o, 1
  {
    if o.And? {
      TimeoutChildrenPlaces(o.children);
    }
  }

  lemma {:induction false} TimeoutChildrenPlaces(os: seq<Output>)
    ensures TimeoutChildren(os).Leaves? ==> forall p :: Names(TimeoutChildren(os).leaves, p) ==> p in AllLeafPlaces(os)
    decreases os, 0
  {
    if os != [] {
      var head, tail := TimeoutChild(os[0]), TimeoutChildren(os[1..]);
      TimeoutChildPlaces(os[0]);
      TimeoutChildrenPlaces(os[1..]);
      if head.Leaves? && tail.Leaves? {
        forall p
          ensures Names(head.leaves + tail.leaves, p) ==> p in AllLeafPlaces(os)
        {
          NamesSplit(head.leaves, tail.leaves, p);
          HeadPlaces(os);
        }
      }
    }
  }

  lemma {:induction false} TimeoutPlaces(o: Output)
    ensures TimeoutLeaves(o).Leaves? ==> forall p :: Names(TimeoutLeaves(o).leaves, p) ==> p in LeafPlaces(o)
    decreases o, 1
  {
    match o
    case Timeout(child) => TimeoutChildPlaces(child);
    case And(children) => FirstTimeoutPlaces(children);
    case Xor(children) => FirstTimeoutPlaces(children);
    case Place(_) =>
    case Forward(_, _) =>
  }

  lemma {:induction false} FirstTimeoutPlaces(os: seq<Output>)
    ensures FirstTimeout(os).Leaves? ==> forall p :: Names(FirstTimeout(os).leaves, p) ==> p in AllLeafPlaces(os)
    decreases os, 0
  {
    if os != [] {
      TimeoutPlaces(os[0]);
      FirstTimeoutPlaces(os[1..]);
      HeadPlaces(os);
    }
  }

  /** No outcome of `t` names a place `t` does not touch. */
  lemma OutcomesTouch(t: Transition, b: Branch, p: nat)
    requires b in Outcomes(t) && Names(b, p)
    ensures p in Touched(t)
  {
    if t.out.Some? {
      var o := t.out.value;
      LeafPlacesAreClaimed(o, p);
      TimeoutPlaces(o);
    }
  }

  lemma {:induction false} GivesNothing(b: Branch, inputs: seq<(nat, Card)>, m: Marking, p: nat)
    requires !Names(b, p)
    ensures Given(b, inputs, m, p) == 0
  {
    if b != [] {
      var first := b[..|b| - 1];
      assert b == first + [b[|b| - 1]];
      NamesSplit(first, [b[|b| - 1]], p);
      assert LeafPlace(b[|b| - 1]) != p;
      GivesNothing(first, inputs, m, p);
    }
  }

  /** A firing leaves an untouched empty place empty, reset or not. */
  lemma UntouchedStaysEmpty(t: Transition, m: Marking, b: Branch, p: nat)
    requires b in Outcomes(t) && p !in Touched(t) && p < |m| && m[p] == 0
    ensures Fire(t, m, b)[p] == 0 && Kept(t, m, p) == m[p]
  {
    if Names(b, p) {
      OutcomesTouch(t, b, p);
    }
    forall i | 0 <= i < |t.inputs|
      ensures t.inputs[i].0 != p
    {
      assert t.inputs[i].0 in Touched(t);
    }
    TakesNothing(t.inputs, m, p);
    GivesNothing(b, t.inputs, m, p);
  }

  lemma MoveStarves(net: Net, environment: set<nat>, dead: set<nat>, m: Marking, m': Marking)
    requires WellFormed(net) && AllDead(net, environment, dead)
    requires Starves(m, net.places, dead) && Move(net, environment, m, m')
    ensures Starves(m', net.places, dead)
  {
    if Step(net, m, m') {
      var i: nat, j: nat :| Leads(net, m, i, j, m');
      forall p | p in dead && p < net.places
        ensures m'[p] == 0
      {
        assert Dead(net, environment, {}, p);
        UntouchedStaysEmpty(net.transitions[i], m, Outcomes(net.transitions[i])[j], p);
      }
    } else {
      var p, k :| Injects(environment, m, m', p, k);
      assert p in dead ==> Dead(net, environment, {}, p);
    }
  }

  // ----- dropping the dead arcs ------------------------------------------------------

  function Without(ps: seq<nat>, dead: set<nat>): (r: seq<nat>)
    ensures forall p :: p in r <==> p in ps && p !in dead
  {
    if ps == [] then []
    else Without(ps[..|ps| - 1], dead) + if ps[|ps| - 1] in dead then [] else [ps[|ps| - 1]]
  }

  function PruneArcs(t: Transition, dead: set<nat>): Transition {
    t.(inhibitors := Without(t.inhibitors, dead), resets := Without(t.resets, dead))
  }

  /** Some read arc is on a dead place: the transition can never be enabled. */
  predicate Blocked(t: Transition, dead: set<nat>) {
    exists p :: p in t.readArcs && p in dead
  }

  function PruneAll(ts: seq<Transition>, dead: set<nat>): seq<Transition> {
    if ts == [] then []
    else
      var last := ts[|ts| - 1];
      PruneAll(ts[..|ts| - 1], dead) + if Blocked(last, dead) then [] else [PruneArcs(last, dead)]
  }

  /** The net without its dead inhibitor and reset arcs and without the blocked transitions. */
  function Prune(net: Net, dead: set<nat>): Net {
    net.(transitions := PruneAll(net.transitions, dead))
  }

  lemma {:induction false} InPruneAll(ts: seq<Transition>, dead: set<nat>, t: Transition)
    ensures t in PruneAll(ts, dead) <==> exists s :: s in ts && !Blocked(s, dead) && t == PruneArcs(s, dead)
  {
    if ts != [] {
      var last := ts[|ts| - 1];
      assert ts == ts[..|ts| - 1] + [last];
      InPruneAll(ts[..|ts| - 1], dead, t);
    }
  }

  /** Where a transition of the pruned net comes from. */
  lemma PruneSource(ts: seq<Transition>, dead: set<nat>, k: nat) returns (i: nat)
    requires k < |PruneAll(ts, dead)|
    ensures i < |ts| && !Blocked(ts[i], dead) && PruneAll(ts, dead)[k] == PruneArcs(ts[i], dead)
  {
    var t := PruneAll(ts, dead)[k];
    InPruneAll(ts, dead, t);
    i :| 0 <= i < |ts| && !Blocked(ts[i], dead) && t == PruneArcs(ts[i], dead);
  }

  /** Where a transition that is not blocked goes. */
  lemma PruneTarget(ts: seq<Transition>, dead: set<nat>, i: nat) returns (k: nat)
    requires i < |ts| && !Blocked(ts[i], dead)
    ensures k < |PruneAll(ts, dead)| && PruneAll(ts, dead)[k] == PruneArcs(ts[i], dead)
  {
    InPruneAll(ts, dead, PruneArcs(ts[i], dead));
    assert ts[i] in ts;
    k :| 0 <= k < |PruneAll(ts, dead)| && PruneAll(ts, dead)[k] == PruneArcs(ts[i], dead);
  }

  lemma PrunedInside(t: Transition, dead: set<nat>, n: nat)
    requires TransitionInside(t, n)
    ensures TransitionInside(PruneArcs(t, dead), n)
  {
    var s := PruneArcs(t, dead);
    forall i | 0 <= i < |s.inhibitors|
      ensures s.inhibitors[i] < n
    {
      assert s.inhibitors[i] in t.inhibitors;
    }
    forall i | 0 <= i < |s.resets|
      ensures s.resets[i] < n
    {
      assert s.resets[i] in t.resets;
    }
  }

  /** A transition of the pruned net is one of the net that reads no dead place, less its dead arcs. */
  lemma PruneIsClean(net: Net, dead: set<nat>, k: nat)
    requires k < |Prune(net, dead).transitions|
    ensures var s := Prune(net, dead).transitions[k];
      && (forall p :: p in dead ==> p !in s.readArcs && p !in s.inhibitors && p !in s.resets)
      && exists t :: t in net.transitions && s == t.(inhibitors := s.inhibitors, resets := s.resets)
           && forall p :: p !in dead ==> (p in t.inhibitors <==> p in s.inhibitors) && (p in t.resets <==> p in s.resets)
  {
    var i := PruneSource(net.transitions, dead, k);
    assert net.transitions[i] in net.transitions;
  }

  lemma PrunedWellFormed(net: Net, dead: set<nat>)
    requires WellFormed(net)
    ensures WellFormed(Prune(net, dead))
  {
    var pruned := Prune(net, dead);
    forall i | 0 <= i < |pruned.transitions|
      ensures TransitionInside(pruned.transitions[i], net.places)
    {
      var s := PruneSource(net.transitions, dead, i);
      PrunedInside(net.transitions[s], dead, net.places);
    }
  }

  /** With the dead places empty, the dead inhibitor and reset arcs change nothing. */
  lemma PrunedFiresAlike(t: Transition, dead: set<nat>, m: Marking, b: Branch)
    requires TransitionInside(t, |m|) && TransitionInside(PruneArcs(t, dead), |m|)
    requires b in Outcomes(t) && forall p :: p in dead && p < |m| ==> m[p] == 0 && p !in Touched(t)
    ensures Enabled(t, m) <==> Enabled(PruneArcs(t, dead), m)
    ensures Fire(t, m, b) == Fire(PruneArcs(t, dead), m, b)
  {
    var s := PruneArcs(t, dead);
    if Enabled(s, m) {
      forall i | 0 <= i < |t.inhibitors|
        ensures m[t.inhibitors[i]] == 0
      {
        if t.inhibitors[i] !in dead {
          assert t.inhibitors[i] in s.inhibitors;
        }
      }
    }
    if Enabled(t, m) {
      forall i | 0 <= i < |s.inhibitors|
        ensures m[s.inhibitors[i]] == 0
      {
        assert s.inhibitors[i] in t.inhibitors;
      }
    }
    forall q | 0 <= q < |m|
      ensures Kept(t, m, q) == Kept(s, m, q)
    {
      if q in dead {
        UntouchedStaysEmpty(t, m, b, q);
        UntouchedStaysEmpty(s, m, b, q);
      }
    }
  }

  /** While the dead places are empty, pruning a transition of the net changes no firing of it. */
  lemma PrunedAlike(net: Net, environment: set<nat>, dead: set<nat>, m: Marking, i: nat, j: nat)
    requires WellFormed(net) && AllDead(net, environment, dead) && Starves(m, net.places, dead)
    requires i < |net.transitions| && j < |Outcomes(net.transitions[i])|
    ensures TransitionInside(net.transitions[i], |m|) && TransitionInside(PruneArcs(net.transitions[i], dead), |m|)
    ensures Enabled(net.transitions[i], m) <==> Enabled(PruneArcs(net.transitions[i], dead), m)
    ensures Fire(net.transitions[i], m, Outcomes(net.transitions[i])[j])
         == Fire(PruneArcs(net.transitions[i], dead), m, Outcomes(net.transitions[i])[j])
  {
    DeadUntouched(net, environment, dead, i);
    PrunedInside(net.transitions[i], dead, net.places);
    PrunedFiresAlike(net.transitions[i], dead, m, Outcomes(net.transitions[i])[j]);
  }

  /** Firing for firing, the pruned net does what the net does while the dead places are empty. */
  lemma PrunedStep(net: Net, environment: set<nat>, dead: set<nat>, m: Marking, m': Marking)
    requires WellFormed(net) && AllDead(net, environment, dead) && Starves(m, net.places, dead)
    requires WellFormed(Prune(net, dead)) && Step(net, m, m')
    ensures Step(Prune(net, dead), m, m')
  {
    var i: nat, j: nat :| Leads(net, m, i, j, m');
    var t, pruned := net.transitions[i], Prune(net, dead);
    PrunedAlike(net, environment, dead, m, i, j);
    NotBlocked(t, dead, m);
    var k := PruneTarget(net.transitions, dead, i);
    assert Leads(pruned, m, k, j, m');
  }

  lemma NotBlocked(t: Transition, dead: set<nat>, m: Marking)
    requires TransitionInside(t, |m|) && Enabled(t, m) && forall p :: p in dead && p < |m| ==> m[p] == 0
    ensures !Blocked(t, dead)
  {
    if p :| p in t.readArcs && p in dead {
      var i :| 0 <= i < |t.readArcs| && t.readArcs[i] == p;
      assert m[t.readArcs[i]] >= 1;
    }
  }

  lemma PrunedStepBack(net: Net, environment: set<nat>, dead: set<nat>, m: Marking, m': Marking)
    requires WellFormed(net) && AllDead(net, environment, dead) && Starves(m, net.places, dead)
    requires WellFormed(Prune(net, dead)) && Step(Prune(net, dead), m, m')
    ensures Step(net, m, m')
  {
    var pruned := Prune(net, dead);
    var k: nat, j: nat :| Leads(pruned, m, k, j, m');
    var i := PruneSource(net.transitions, dead, k);
    PrunedAlike(net, environment, dead, m, i, j);
    assert Leads(net, m, i, j, m');
  }

  lemma DeadUntouched(net: Net, environment: set<nat>, dead: set<nat>, i: nat)
    requires AllDead(net, environment, dead) && i < |net.transitions|
    ensures forall p :: p in dead ==> p !in Touched(net.transitions[i])
  {
    forall p | p in dead
      ensures p !in Touched(net.transitions[i])
    {
      assert Dead(net, environment, {}, p);
    }
  }

  /** Dead places stay empty along every run, whatever the environment delivers. */
  lemma {:induction false} DeadStaysEmpty(net: Net, environment: set<nat>, dead: set<nat>, run: seq<Marking>)
    requires WellFormed(net) && AllDead(net, environment, dead) && OpenRun(net, environment, run)
    ensures forall i :: 0 <= i < |run| ==> Starves(run[i], net.places, dead)
    decreases |run|
  {
    if |run| > 1 {
      var n := |run| - 1;
      var first := run[..n];
      forall i: nat | i + 1 < n
        ensures MoveAt(net, environment, first, i)
      {
        assert MoveAt(net, environment, run, i);
      }
      DeadStaysEmpty(net, environment, dead, first);
      assert MoveAt(net, environment, run, n - 1);
      assert run[n - 1] == first[n - 1];
      MoveStarves(net, environment, dead, run[n - 1], run[n]);
      assert forall i :: 0 <= i < n ==> run[i] == first[i];
    }
  }

  /** The pruned net has exactly the runs of the net. */
  lemma PruningKeepsRuns(net: Net, environment: set<nat>, dead: set<nat>, run: seq<Marking>)
    requires WellFormed(net) && AllDead(net, environment, dead)
    ensures WellFormed(Prune(net, dead))
    ensures OpenRun(net, environment, run) <==> OpenRun(Prune(net, dead), environment, run)
  {
    PrunedWellFormed(net, dead);
    if OpenRun(net, environment, run) {
      DeadStaysEmpty(net, environment, dead, run);
      forall i: nat | i + 1 < |run|
        ensures MoveAt(Prune(net, dead), environment, run, i)
      {
        assert MoveAt(net, environment, run, i);
        if Step(net, run[i], run[i + 1]) {
          PrunedStep(net, environment, dead, run[i], run[i + 1]);
        }
      }
    }
    if OpenRun(Prune(net, dead), environment, run) {
      PrunedIsDeadToo(net, environment, dead);
      DeadStaysEmpty(Prune(net, dead), environment, dead, run);
      forall i: nat | i + 1 < |run|
        ensures MoveAt(net, environment, run, i)
      {
        assert MoveAt(Prune(net, dead), environment, run, i);
        if Step(Prune(net, dead), run[i], run[i + 1]) {
          PrunedStepBack(net, environment, dead, run[i], run[i + 1]);
        }
      }
    }
  }

  lemma PrunedIsDeadToo(net: Net, environment: set<nat>, dead: set<nat>)
    requires AllDead(net, environment, dead)
    ensures AllDead(Prune(net, dead), environment, dead)
  {
    var pruned := Prune(net, dead);
    forall p | p in dead
      ensures !IsTouched(pruned, p)
    {
      assert Dead(net, environment, {}, p);
      forall k | 0 <= k < |pruned.transitions|
        ensures p !in Touched(pruned.transitions[k])
      {
        var i := PruneSource(net.transitions, dead, k);
        assert Touched(net.transitions[i]) == Touched(pruned.transitions[k]);
      }
    }
  }

  // ----- detection and pruning together ----------------------------------------------

  ghost function Marked(m: Marking): set<nat> {
    set p | 0 <= p < |m| && m[p] != 0
  }

  lemma {:induction false} AmongIsDead(arcs: seq<DeadArc>, dead: iset<nat>, a: DeadArc)
    requires a in Among(arcs, dead)
    ensures a.place in dead
  {
    if a in Among(arcs[..|arcs| - 1], dead) {
      AmongIsDead(arcs[..|arcs| - 1], dead, a);
    }
  }

  /** The places `dead_arcs` reports can be pruned: the net keeps its runs without them. */
  lemma ReportedArcsAreDead(net: Net, environment: set<nat>, found: seq<DeadArc>, run: seq<Marking>)
    requires WellFormed(net)
    requires found == Among(AllArcs(net.transitions), DeadPlaces(net, environment, Marked(net.initial)))
    ensures var dead := set i | 0 <= i < |found| :: found[i].place;
      AllDead(net, environment, dead) && WellFormed(Prune(net, dead)) &&
      (OpenRun(net, environment, run) <==> OpenRun(Prune(net, dead), environment, run))
  {
    var dead := set i | 0 <= i < |found| :: found[i].place;
    forall p | p in dead
      ensures Dead(net, environment, {}, p) && (p < |net.initial| ==> net.initial[p] == 0)
    {
      var i :| 0 <= i < |found| && found[i].place == p;
      AmongIsDead(AllArcs(net.transitions), DeadPlaces(net, environment, Marked(net.initial)), found[i]);
      assert Dead(net, environment, Marked(net.initial), p);
    }
    PruningKeepsRuns(net, environment, dead, run);
  }
}
