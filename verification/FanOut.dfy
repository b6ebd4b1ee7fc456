/**
 The tool fan-out: each round mints a fresh name, runs a search and a fetch under it, and joins
 the two results by name. Actions start and complete separately, in any interleaving.
 */
module FanOut {

  type Turn = nat

  /** A token's payload: the name its round minted, and the turn it belongs to. */
  datatype Call = Call(id: nat, turn: Turn)

  /** What a join writes: the turn its two results agree on, or a mark that they do not. */
  datatype Result = Merged(turn: Turn) | Crossed(left: Turn, right: Turn)

  /** Tokens by place, the tokens running actions hold, and the names minted so far. */
  datatype State = State(
    plan: multiset<Turn>, search: multiset<Call>, fetch: multiset<Call>,
    searched: multiset<Call>, fetched: multiset<Call>, merged: multiset<Result>,
    fanning: multiset<Turn>, searching: multiset<Call>, fetching: multiset<Call>,
    joining: multiset<(Call, Call)>, minted: nat)

  datatype Action =
    | StartFanOut(turn: Turn) | FanOutDone(turn: Turn)
    | StartSearch(call: Call) | SearchDone(call: Call)
    | StartFetch(call: Call) | FetchDone(call: Call)
    | StartJoin(left: Call, right: Call) | JoinDone(left: Call, right: Call)

  /** The join's match: the two inputs carry one name. */
  predicate Correlates(a: Call, b: Call) {
    a.id == b.id
  }

  predicate Enabled(a: Action, s: State) {
    match a
    case StartFanOut(t) => t in s.plan
    case FanOutDone(t) => t in s.fanning
    case StartSearch(c) => c in s.search
    case SearchDone(c) => c in s.searching
    case StartFetch(c) => c in s.fetch
    case FetchDone(c) => c in s.fetching
    case StartJoin(c, d) => c in s.searched && d in s.fetched && Correlates(c, d)
    case JoinDone(c, d) => (c, d) in s.joining
  }

  function Joined(c: Call, d: Call): Result {
    if c.turn == d.turn then Merged(c.turn) else Crossed(c.turn, d.turn)
  }

  function Perform(a: Action, s: State): State
    requires Enabled(a, s)
  {
    match a
    case StartFanOut(t) => s.(plan := s.plan - multiset{t}, fanning := s.fanning + multiset{t})
    case FanOutDone(t) =>
      var call := Call(s.minted, t);
      s.(fanning := s.fanning - multiset{t}, minted := s.minted + 1,
         search := s.search + multiset{call}, fetch := s.fetch + multiset{call})
    case StartSearch(c) => s.(search := s.search - multiset{c}, searching := s.searching + multiset{c})
    case SearchDone(c) => s.(searching := s.searching - multiset{c}, searched := s.searched + multiset{c})
    case StartFetch(c) => s.(fetch := s.fetch - multiset{c}, fetching := s.fetching + multiset{c})
    case FetchDone(c) => s.(fetching := s.fetching - multiset{c}, fetched := s.fetched + multiset{c})
    case StartJoin(c, d) =>
      s.(searched := s.searched - multiset{c}, fetched := s.fetched - multiset{d}, joining := s.joining + multiset{(c, d)})
    case JoinDone(c, d) =>
      s.(joining := s.joining - multiset{(c, d)}, merged := s.merged + multiset{Joined(c, d)})
  }

  function Initial(plans: multiset<Turn>): State {
    State(plans, multiset{}, multiset{}, multiset{}, multiset{}, multiset{}, multiset{}, multiset{}, multiset{}, multiset{}, 0)
  }

  predicate Runs(s0: State, acts: seq<Action>, s: State)
    decreases acts
  {
    if acts == [] then s == s0 else Enabled(acts[0], s0) && Runs(Perform(acts[0], s0), acts[1..], s)
  }

  ghost predicate AtRest(s: State) {
    forall a :: !Enabled(a, s)
  }

  // ----- the net as arcs -------------------------------------------------------------

  /** `after` is `before` with one `x` more. */
  ghost predicate Gains<X>(before: multiset<X>, after: multiset<X>, x: X) {
    after == before + multiset{x}
  }

  /** What an action takes and gives, each token on its arc; a fan-out names its two by the next fresh name. */
  ghost predicate Moves(a: Action, s: State, s': State) {
    match a
    case StartFanOut(t) =>
      Gains(s'.plan, s.plan, t) && Gains(s.fanning, s'.fanning, t) && s' == s.(plan := s'.plan, fanning := s'.fanning)
    case FanOutDone(t) =>
      && Gains(s'.fanning, s.fanning, t) && s'.minted == s.minted + 1
      && Gains(s.search, s'.search, Call(s.minted, t)) && Gains(s.fetch, s'.fetch, Call(s.minted, t))
      && s' == s.(fanning := s'.fanning, search := s'.search, fetch := s'.fetch, minted := s'.minted)
    case StartSearch(c) =>
      Gains(s'.search, s.search, c) && Gains(s.searching, s'.searching, c) && s' == s.(search := s'.search, searching := s'.searching)
    case SearchDone(c) =>
      Gains(s'.searching, s.searching, c) && Gains(s.searched, s'.searched, c) &&
      s' == s.(searching := s'.searching, searched := s'.searched)
    case StartFetch(c) =>
      Gains(s'.fetch, s.fetch, c) && Gains(s.fetching, s'.fetching, c) && s' == s.(fetch := s'.fetch, fetching := s'.fetching)
    case FetchDone(c) =>
      Gains(s'.fetching, s.fetching, c) && Gains(s.fetched, s'.fetched, c) &&
      s' == s.(fetching := s'.fetching, fetched := s'.fetched)
    case StartJoin(c, d) =>
      && c.id == d.id && Gains(s'.searched, s.searched, c) && Gains(s'.fetched, s.fetched, d)
      && Gains(s.joining, s'.joining, (c, d)) && s' == s.(searched := s'.searched, fetched := s'.fetched, joining := s'.joining)
    case JoinDone(c, d) =>
      && Gains(s'.joining, s.joining, (c, d))
      && Gains(s.merged, s'.merged, if c.turn == d.turn then Merged(c.turn) else Crossed(c.turn, d.turn))
      && s' == s.(joining := s'.joining, merged := s'.merged)
  }

  /** Taking a token is exactly undoing a gain. */
  lemma TakenIffGains<X>(m: multiset<X>, rest: multiset<X>, x: X)
    ensures Gains(rest, m, x) <==> x in m && rest == m - multiset{x}
  {
  }

  lemma RoundByArcs(a: Action, s: State, s': State)
    requires a.StartFanOut? || a.FanOutDone? || a.StartJoin? || a.JoinDone?
    ensures Enabled(a, s) && s' == Perform(a, s) <==> Moves(a, s, s')
  {
    match a
    case StartFanOut(t) => TakenIffGains(s.plan, s'.plan, t);
    case FanOutDone(t) => TakenIffGains(s.fanning, s'.fanning, t);
    case StartJoin(c, d) =>
      TakenIffGains(s.searched, s'.searched, c);
      TakenIffGains(s.fetched, s'.fetched, d);
    case JoinDone(c, d) => TakenIffGains(s.joining, s'.joining, (c, d));
  }

  lemma BranchByArcs(a: Action, s: State, s': State)
    requires a.StartSearch? || a.SearchDone? || a.StartFetch? || a.FetchDone?
    ensures Enabled(a, s) && s' == Perform(a, s) <==> Moves(a, s, s')
  {
    match a
    case StartSearch(c) => TakenIffGains(s.search, s'.search, c);
    case SearchDone(c) => TakenIffGains(s.searching, s'.searching, c);
    case StartFetch(c) => TakenIffGains(s.fetch, s'.fetch, c);
    case FetchDone(c) => TakenIffGains(s.fetching, s'.fetching, c);
  }

  /** An action can happen, with this result, exactly if its arcs say so. */
  lemma PerformsByArcs(a: Action, s: State, s': State)
    ensures Enabled(a, s) && s' == Perform(a, s) <==> Moves(a, s, s')
  {
    if a.StartFanOut? || a.FanOutDone? || a.StartJoin? || a.JoinDone? {
      RoundByArcs(a, s, s');
    } else {
      BranchByArcs(a, s, s');
    }
  }

  // ----- the turns of a collection of tokens -----------------------------------------

  ghost function Turns<X>(turnOf: X -> Turn, m: multiset<X>): multiset<Turn>
    decreases |m|
  {
    if m == multiset{} then multiset{}
    else
      var x :| x in m;
      Turns(turnOf, m - multiset{x}) + multiset{turnOf(x)}
  }

  lemma TakeTwo<X>(m: multiset<X>, x: X, y: X)
    requires x in m && y in m && x != y
    ensures x in m - multiset{y} && m - multiset{y} - multiset{x} == m - multiset{x} - multiset{y}
  {
  }

  lemma {:induction false} TurnsWithout<X>(turnOf: X -> Turn, m: multiset<X>, x: X)
    requires x in m
    ensures Turns(turnOf, m) == Turns(turnOf, m - multiset{x}) + multiset{turnOf(x)}
    decreases |m|
  {
    var y :| y in m && Turns(turnOf, m) == Turns(turnOf, m - multiset{y}) + multiset{turnOf(y)};
    if y != x {
      TakeTwo(m, x, y);
      TakeTwo(m, y, x);
      TurnsWithout(turnOf, m - multiset{y}, x);
      TurnsWithout(turnOf, m - multiset{x}, y);
    }
  }

  lemma TurnsWith<X>(turnOf: X -> Turn, m: multiset<X>, x: X)
    ensures Turns(turnOf, m + multiset{x}) == Turns(turnOf, m) + multiset{turnOf(x)}
  {
    TurnsWithout(turnOf, m + multiset{x}, x);
    assert m + multiset{x} - multiset{x} == m;
  }

  // ----- the invariant ---------------------------------------------------------------

  function TurnOfCall(c: Call): Turn {
    c.turn
  }

  function TurnOfPair(p: (Call, Call)): Turn {
    p.0.turn
  }

  function TurnOfResult(r: Result): Turn {
    match r case Merged(t) => t case Crossed(t, _) => t
  }

  /** Everything on the search branch, running or not, and likewise for the fetch branch. */
  function Searches(s: State): multiset<Call> {
    s.search + s.searching + s.searched
  }

  function Fetches(s: State): multiset<Call> {
    s.fetch + s.fetching + s.fetched
  }

  /** A name labels at most one token of the branch, and was minted. */
  ghost predicate Named(m: multiset<Call>, minted: nat) {
    && (forall c :: c in m ==> c.id < minted && m[c] == 1)
    && (forall c, d :: c in m && d in m && c.id == d.id ==> c == d)
  }

  ghost predicate BranchesAgree(s: State) {
    Searches(s) == Fetches(s) && Named(Searches(s), s.minted)
  }

  ghost predicate JoinsAgree(s: State) {
    && (forall p :: p in s.joining ==> p.0 == p.1)
    && (forall r :: r in s.merged ==> r.Merged?)
  }

  ghost predicate Paired(s: State) {
    BranchesAgree(s) && JoinsAgree(s)
  }

  /** Every plan is waiting, being fanned out, on the branches, being joined, or merged. */
  ghost function AllTurns(s: State): multiset<Turn> {
    s.plan + s.fanning + Turns(TurnOfCall, Searches(s)) + Turns(TurnOfPair, s.joining) + Turns(TurnOfResult, s.merged)
  }

  // Moving one element between the parts of a sum.

  lemma Move12<X>(a: multiset<X>, b: multiset<X>, c: multiset<X>, x: X)
    requires x in a
    ensures (a - multiset{x}) + (b + multiset{x}) + c == a + b + c
  {
  }

  lemma Move23<X>(a: multiset<X>, b: multiset<X>, c: multiset<X>, x: X)
    requires x in b
    ensures a + (b - multiset{x}) + (c + multiset{x}) == a + b + c
  {
  }

  lemma Put1<X>(a: multiset<X>, b: multiset<X>, c: multiset<X>, x: X)
    ensures (a + multiset{x}) + b + c == a + b + c + multiset{x}
  {
  }

  lemma Take3<X>(a: multiset<X>, b: multiset<X>, c: multiset<X>, x: X)
    requires x in c
    ensures a + b + (c - multiset{x}) == a + b + c - multiset{x} && x in a + b + c
  {
  }

  lemma NameMinted(m: multiset<Call>, minted: nat, turn: Turn)
    requires Named(m, minted)
    ensures Named(m + multiset{Call(minted, turn)}, minted + 1)
  {
    var more := m + multiset{Call(minted, turn)};
    forall c | c in more
      ensures c.id < minted + 1 && more[c] == 1
    {
      assert c in m || c == Call(minted, turn);
    }
  }

  lemma NameSpent(m: multiset<Call>, minted: nat, call: Call)
    requires Named(m, minted)
    ensures Named(m - multiset{call}, minted)
  {
    forall c | c in m - multiset{call}
      ensures c in m
    {
    }
  }

  /** What an action does to the two branches: a round is added, a joined one removed, or nothing. */
  lemma BranchMoves(a: Action, s: State)
    requires Enabled(a, s)
    ensures var s' := Perform(a, s);
      match a
      case FanOutDone(t) =>
        Searches(s') == Searches(s) + multiset{Call(s.minted, t)} && Fetches(s') == Fetches(s) + multiset{Call(s.minted, t)}
      case StartJoin(c, d) =>
        Searches(s') == Searches(s) - multiset{c} && Fetches(s') == Fetches(s) - multiset{d} &&
        c in Searches(s) && d in Fetches(s)
      case _ => Searches(s') == Searches(s) && Fetches(s') == Fetches(s)
  {
    match a
    case FanOutDone(t) =>
      Put1(s.search, s.searching, s.searched, Call(s.minted, t));
      Put1(s.fetch, s.fetching, s.fetched, Call(s.minted, t));
    case StartSearch(c) => Move12(s.search, s.searching, s.searched, c);
    case SearchDone(c) => Move23(s.search, s.searching, s.searched, c);
    case StartFetch(c) => Move12(s.fetch, s.fetching, s.fetched, c);
    case FetchDone(c) => Move23(s.fetch, s.fetching, s.fetched, c);
    case StartJoin(c, d) =>
      Take3(s.search, s.searching, s.searched, c);
      Take3(s.fetch, s.fetching, s.fetched, d);
    case _ =>
  }

  lemma PerformKeepsBranches(a: Action, s: State)
    requires Enabled(a, s) && BranchesAgree(s)
    ensures BranchesAgree(Perform(a, s))
    ensures a.StartJoin? ==> a.left == a.right
  {
    BranchMoves(a, s);
    if a.FanOutDone? {
      NameMinted(Searches(s), s.minted, a.turn);
    } else if a.StartJoin? {
      NameSpent(Searches(s), s.minted, a.left);
    }
  }

  lemma PerformKeepsJoins(a: Action, s: State)
    requires Enabled(a, s) && JoinsAgree(s) && (a.StartJoin? ==> a.left == a.right)
    ensures JoinsAgree(Perform(a, s))
  {
    var s' := Perform(a, s);
    forall p | p in s'.joining
      ensures p.0 == p.1
    {
      assert p in s.joining || (a.StartJoin? && p == (a.left, a.right));
    }
    if a.JoinDone? {
      assert (a.left, a.right).0 == (a.left, a.right).1;
    }
  }

  lemma Flow12<X>(a: multiset<X>, b: multiset<X>, c: multiset<X>, d: multiset<X>, e: multiset<X>, x: X)
    requires x in a
    ensures (a - multiset{x}) + (b + multiset{x}) + c + d + e == a + b + c + d + e
  {
  }

  lemma Flow23<X>(a: multiset<X>, b: multiset<X>, c: multiset<X>, d: multiset<X>, e: multiset<X>, x: X)
    requires x in b
    ensures a + (b - multiset{x}) + (c + multiset{x}) + d + e == a + b + c + d + e
  {
  }

  lemma Flow34<X>(a: multiset<X>, b: multiset<X>, c: multiset<X>, d: multiset<X>, e: multiset<X>, x: X)
    ensures a + b + c + (d + multiset{x}) + e == a + b + (c + multiset{x}) + d + e
  {
  }

  lemma Flow45<X>(a: multiset<X>, b: multiset<X>, c: multiset<X>, d: multiset<X>, e: multiset<X>, x: X)
    ensures a + b + c + d + (e + multiset{x}) == a + b + c + (d + multiset{x}) + e
  {
  }

  lemma PerformKeepsTurns(a: Action, s: State)
    requires Enabled(a, s) && Paired(s)
    ensures AllTurns(Perform(a, s)) == AllTurns(s)
  {
    BranchMoves(a, s);
    var branch, joins, results := Turns(TurnOfCall, Searches(s)), Turns(TurnOfPair, s.joining), Turns(TurnOfResult, s.merged);
    match a
    case StartFanOut(t) => Flow12(s.plan, s.fanning, branch, joins, results, t);
    case FanOutDone(t) =>
      TurnsWith(TurnOfCall, Searches(s), Call(s.minted, t));
      Flow23(s.plan, s.fanning, branch, joins, results, t);
    case StartJoin(c, d) =>
      TurnsWithout(TurnOfCall, Searches(s), c);
      TurnsWith(TurnOfPair, s.joining, (c, d));
      Flow34(s.plan, s.fanning, Turns(TurnOfCall, Searches(s) - multiset{c}), joins, results, c.turn);
    case JoinDone(c, d) =>
      assert (c, d).0 == (c, d).1;
      TurnsWithout(TurnOfPair, s.joining, (c, d));
      TurnsWith(TurnOfResult, s.merged, Joined(c, d));
      Flow45(s.plan, s.fanning, branch, Turns(TurnOfPair, s.joining - multiset{(c, d)}), results, c.turn);
    case _ =>
  }

  lemma {:induction false} RunLaws(s0: State, acts: seq<Action>, s: State)
    requires Runs(s0, acts, s) && Paired(s0)
    ensures Paired(s) && AllTurns(s) == AllTurns(s0)
    decreases acts
  {
    if acts != [] {
      PerformKeepsBranches(acts[0], s0);
      PerformKeepsJoins(acts[0], s0);
      PerformKeepsTurns(acts[0], s0);
      RunLaws(Perform(acts[0], s0), acts[1..], s);
    }
  }

  // ----- what it means ---------------------------------------------------------------

  /** A join only ever pairs the two tokens of one fan-out, and never reports crossed turns. */
  lemma NeverCrossed(plans: multiset<Turn>, acts: seq<Action>, s: State)
    requires Runs(Initial(plans), acts, s)
    ensures forall c, d :: Enabled(StartJoin(c, d), s) ==> c == d
    ensures forall r :: r in s.merged ==> r.Merged?
    ensures forall c, d :: c in Searches(s) && d in Fetches(s) && c.id == d.id ==> c == d && Searches(s)[c] == 1
  {
    RunLaws(Initial(plans), acts, s);
    forall c, d | Enabled(StartJoin(c, d), s)
      ensures c == d
    {
      assert c in Searches(s) && d in Fetches(s);
    }
  }

  lemma Empty<X>(m: multiset<X>)
    requires forall x :: x !in m
    ensures m == multiset{}
  {
  }

  lemma NothingRunning(s: State)
    requires AtRest(s)
    ensures s.plan == s.fanning == multiset{}
    ensures s.search == s.searching == s.fetch == s.fetching == multiset{} && s.joining == multiset{}
  {
    forall t: Turn
      ensures t !in s.plan && t !in s.fanning
    {
      assert !Enabled(StartFanOut(t), s) && !Enabled(FanOutDone(t), s);
    }
    forall c: Call
      ensures c !in s.search && c !in s.searching && c !in s.fetch && c !in s.fetching
    {
      assert !Enabled(StartSearch(c), s) && !Enabled(SearchDone(c), s);
      assert !Enabled(StartFetch(c), s) && !Enabled(FetchDone(c), s);
    }
    forall p: (Call, Call)
      ensures p !in s.joining
    {
      assert p == (p.0, p.1) && !Enabled(JoinDone(p.0, p.1), s);
    }
    Empty(s.search);
    Empty(s.searching);
    Empty(s.fetch);
    Empty(s.fetching);
    Empty(s.joining);
  }

  /** With nothing running, what the branches still hold could be joined. */
  lemma NothingUnjoined(s: State)
    requires AtRest(s) && BranchesAgree(s)
    ensures s.searched == s.fetched == multiset{} && Searches(s) == multiset{}
  {
    NothingRunning(s);
    assert s.searched == Searches(s) && s.fetched == Fetches(s);
    forall c: Call
      ensures c !in s.searched
    {
      assert !Enabled(StartJoin(c, c), s);
    }
    Empty(s.searched);
  }

  /** A run that has come to rest has merged exactly the plans it started with. */
  lemma RestMergesEveryPlan(plans: multiset<Turn>, acts: seq<Action>, s: State)
    requires Runs(Initial(plans), acts, s) && AtRest(s)
    ensures Turns(TurnOfResult, s.merged) == plans && forall r :: r in s.merged ==> r.Merged?
    ensures s.plan == s.fanning == multiset{} && s.joining == multiset{}
    ensures s.search == s.fetch == s.searched == s.fetched == s.searching == s.fetching == multiset{}
  {
    RunLaws(Initial(plans), acts, s);
    NothingRunning(s);
    NothingUnjoined(s);
    InitialTurns(plans);
  }

  lemma InitialTurns(plans: multiset<Turn>)
    ensures AllTurns(Initial(plans)) == plans
  {
  }

  /** What is left to start and complete: eight steps a plan. */
  function Fuel(s: State): nat {
    8 * |s.plan| + 7 * |s.fanning| + 3 * |s.search| + 3 * |s.fetch| + 2 * |s.searching| + 2 * |s.fetching| +
    |s.searched| + |s.fetched| + |s.joining|
  }

  lemma OneLess<X>(m: multiset<X>, x: X)
    requires x in m
    ensures |m - multiset{x}| == |m| - 1
  {
  }

  lemma OneMore<X>(m: multiset<X>, x: X)
    ensures |m + multiset{x}| == |m| + 1
  {
  }

  lemma StartBurns(a: Action, s: State)
    requires Enabled(a, s) && (a.StartFanOut? || a.StartSearch? || a.StartFetch? || a.StartJoin?)
    ensures Fuel(Perform(a, s)) == Fuel(s) - 1
  {
    match a
    case StartFanOut(t) =>
      OneLess(s.plan, t);
      OneMore(s.fanning, t);
    case StartSearch(c) =>
      OneLess(s.search, c);
      OneMore(s.searching, c);
    case StartFetch(c) =>
      OneLess(s.fetch, c);
      OneMore(s.fetching, c);
    case StartJoin(c, d) =>
      OneLess(s.searched, c);
      OneLess(s.fetched, d);
      OneMore(s.joining, (c, d));
  }

  lemma DoneBurns(a: Action, s: State)
    requires Enabled(a, s) && (a.FanOutDone? || a.SearchDone? || a.FetchDone? || a.JoinDone?)
    ensures Fuel(Perform(a, s)) == Fuel(s) - 1
  {
    match a
    case FanOutDone(t) =>
      OneLess(s.fanning, t);
      OneMore(s.search, Call(s.minted, t));
      OneMore(s.fetch, Call(s.minted, t));
    case SearchDone(c) =>
      OneLess(s.searching, c);
      OneMore(s.searched, c);
    case FetchDone(c) =>
      OneLess(s.fetching, c);
      OneMore(s.fetched, c);
    case JoinDone(c, d) =>
      OneLess(s.joining, (c, d));
  }

  lemma PerformBurns(a: Action, s: State)
    requires Enabled(a, s)
    ensures Fuel(Perform(a, s)) == Fuel(s) - 1
  {
    if a.StartFanOut? || a.StartSearch? || a.StartFetch? || a.StartJoin? {
      StartBurns(a, s);
    } else {
      DoneBurns(a, s);
    }
  }

  /** Every start and completion burns one unit of fuel. */
  lemma {:induction false} RunBurns(s0: State, acts: seq<Action>, s: State)
    requires Runs(s0, acts, s)
    ensures |acts| + Fuel(s) == Fuel(s0)
    decreases acts
  {
    if acts != [] {
      PerformBurns(acts[0], s0);
      RunBurns(Perform(acts[0], s0), acts[1..], s);
    }
  }

  /** A run has at most eight starts and completions a plan, and exactly as many if it has come to rest. */
  lemma RunsAreBounded(plans: multiset<Turn>, acts: seq<Action>, s: State)
    requires Runs(Initial(plans), acts, s)
    ensures |acts| <= 8 * |plans|
    ensures AtRest(s) <==> |acts| == 8 * |plans|
  {
    RunBurns(Initial(plans), acts, s);
    if AtRest(s) {
      RestMergesEveryPlan(plans, acts, s);
    } else {
      var a :| Enabled(a, s);
      PerformBurns(a, s);
    }
  }
}
