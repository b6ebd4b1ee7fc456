/**
 Two agent turns composed into a session: `open` asks both, `close` pairs their answers, and
 whatever either gives up on lands on one shared `escalate` place.
 */
module SessionHost {
  import AgentTurn

  /**
   `alice` and `bob` are the two instances on their own places: their `request` is bound to
   `toAlice` and `toBob`, their `answer` to `fromAlice` and `fromBob`. Both `failed` ports are
   bound to `escalate`, which holds the tokens of both.
   */
  datatype Host = Host(session: nat, alice: AgentTurn.Turn, bob: AgentTurn.Turn, done: nat)

  datatype Firing = Open | Close | Alice(f: AgentTurn.Firing) | Bob(f: AgentTurn.Firing)

  function Escalate(s: Host): nat {
    s.alice.failed + s.bob.failed
  }

  predicate Enabled(f: Firing, s: Host) {
    match f
    case Open => s.session >= 1
    case Close => s.alice.answer >= 1 && s.bob.answer >= 1
    case Alice(g) => AgentTurn.Enabled(g, s.alice)
    case Bob(g) => AgentTurn.Enabled(g, s.bob)
  }

  function Fire(f: Firing, s: Host): Host
    requires Enabled(f, s)
  {
    match f
    case Open =>
      s.(session := s.session - 1,
         alice := s.alice.(request := s.alice.request + 1), bob := s.bob.(request := s.bob.request + 1))
    case Close =>
      s.(alice := s.alice.(answer := s.alice.answer - 1), bob := s.bob.(answer := s.bob.answer - 1), done := s.done + 1)
    case Alice(g) => s.(alice := AgentTurn.Fire(g, s.alice))
    case Bob(g) => s.(bob := AgentTurn.Fire(g, s.bob))
  }

  function Initial(sessions: nat, alicePermits: nat, bobPermits: nat): Host {
    Host(sessions, AgentTurn.InitialTurn(0, alicePermits), AgentTurn.InitialTurn(0, bobPermits), 0)
  }

  predicate Runs(s0: Host, fs: seq<Firing>, s: Host)
    decreases fs
  {
    if fs == [] then s == s0
    else Enabled(fs[0], s0) && Runs(Fire(fs[0], s0), fs[1..], s)
  }

  ghost predicate AtRest(s: Host) {
    forall f :: !Enabled(f, s)
  }

  // ----- the net as arcs -------------------------------------------------------------

  function Plus(a: Host, b: Host): Host {
    Host(a.session + b.session, AgentTurn.Plus(a.alice, b.alice), AgentTurn.Plus(a.bob, b.bob), a.done + b.done)
  }

  const NOTHING := Host(0, AgentTurn.NOTHING, AgentTurn.NOTHING, 0)

  function Takes(f: Firing): Host {
    match f
    case Open => NOTHING.(session := 1)
    case Close => NOTHING.(alice := AgentTurn.NOTHING.(answer := 1), bob := AgentTurn.NOTHING.(answer := 1))
    case Alice(g) => NOTHING.(alice := AgentTurn.Takes(g))
    case Bob(g) => NOTHING.(bob := AgentTurn.Takes(g))
  }

  function Gives(f: Firing): Host {
    match f
    case Open => NOTHING.(alice := AgentTurn.NOTHING.(request := 1), bob := AgentTurn.NOTHING.(request := 1))
    case Close => NOTHING.(done := 1)
    case Alice(g) => NOTHING.(alice := AgentTurn.Gives(g))
    case Bob(g) => NOTHING.(bob := AgentTurn.Gives(g))
  }

  /** Each instance has its own inhibitor on its own budget. */
  predicate Inhibited(f: Firing, s: Host) {
    (f == Alice(AgentTurn.GiveUp) && s.alice.toolBudget > 0) || (f == Bob(AgentTurn.GiveUp) && s.bob.toolBudget > 0)
  }

  /** A firing replaces the tokens on its inputs by those on its outputs. */
  lemma FiresByArcs(f: Firing, s: Host, s': Host)
    ensures Enabled(f, s) && s' == Fire(f, s) <==>
      (exists rest :: s == Plus(rest, Takes(f)) && s' == Plus(rest, Gives(f))) && !Inhibited(f, s)
  {
    match f
    case Open =>
      if Enabled(f, s) {
        assert s == Plus(s.(session := s.session - 1), Takes(f));
      }
    case Close =>
      if Enabled(f, s) {
        var rest := s.(alice := s.alice.(answer := s.alice.answer - 1), bob := s.bob.(answer := s.bob.answer - 1));
        assert s == Plus(rest, Takes(f)) && Fire(f, s) == Plus(rest, Gives(f));
      }
    case Alice(g) => AliceByArcs(g, s, s');
    case Bob(g) => BobByArcs(g, s, s');
  }

  lemma AliceByArcs(g: AgentTurn.Firing, s: Host, s': Host)
    ensures Enabled(Alice(g), s) && s' == Fire(Alice(g), s) <==>
      (exists rest :: s == Plus(rest, Takes(Alice(g))) && s' == Plus(rest, Gives(Alice(g)))) && !Inhibited(Alice(g), s)
  {
    AgentTurn.FiresByArcs(g, s.alice, s'.alice);
    if rest :| s == Plus(rest, Takes(Alice(g))) && s' == Plus(rest, Gives(Alice(g))) {
      assert s.alice == AgentTurn.Plus(rest.alice, AgentTurn.Takes(g)) && s'.alice == AgentTurn.Plus(rest.alice, AgentTurn.Gives(g));
      assert s' == s.(alice := s'.alice);
    }
    if Enabled(Alice(g), s) && s' == Fire(Alice(g), s) {
      var rest :| s.alice == AgentTurn.Plus(rest, AgentTurn.Takes(g)) && s'.alice == AgentTurn.Plus(rest, AgentTurn.Gives(g));
      var all := s.(alice := rest);
      assert s == Plus(all, Takes(Alice(g))) && s' == Plus(all, Gives(Alice(g)));
    }
  }

  lemma BobByArcs(g: AgentTurn.Firing, s: Host, s': Host)
    ensures Enabled(Bob(g), s) && s' == Fire(Bob(g), s) <==>
      (exists rest :: s == Plus(rest, Takes(Bob(g))) && s' == Plus(rest, Gives(Bob(g)))) && !Inhibited(Bob(g), s)
  {
    AgentTurn.FiresByArcs(g, s.bob, s'.bob);
    if rest :| s == Plus(rest, Takes(Bob(g))) && s' == Plus(rest, Gives(Bob(g))) {
      assert s.bob == AgentTurn.Plus(rest.bob, AgentTurn.Takes(g)) && s'.bob == AgentTurn.Plus(rest.bob, AgentTurn.Gives(g));
      assert s' == s.(bob := s'.bob);
    }
    if Enabled(Bob(g), s) && s' == Fire(Bob(g), s) {
      var rest :| s.bob == AgentTurn.Plus(rest, AgentTurn.Takes(g)) && s'.bob == AgentTurn.Plus(rest, AgentTurn.Gives(g));
      var all := s.(bob := rest);
      assert s == Plus(all, Takes(Bob(g))) && s' == Plus(all, Gives(Bob(g)));
    }
  }

  /** An answer still costs a firing here: it waits to be closed. */
  function TurnFuel(t: AgentTurn.Turn): nat {
    AgentTurn.Fuel(t) + t.answer
  }

  function Fuel(s: Host): nat {
    7 * s.session + TurnFuel(s.alice) + TurnFuel(s.bob)
  }

  /** Every session opened is on its way, answered, closed or escalated on either side. */
  ghost predicate Laws(sessions: nat, s: Host) {
    && s.session + AgentTurn.Requests(s.alice) + s.done == sessions
    && s.session + AgentTurn.Requests(s.bob) + s.done == sessions
  }

  lemma TurnFiring(f: AgentTurn.Firing, t: AgentTurn.Turn)
    requires AgentTurn.Enabled(f, t)
    ensures TurnFuel(AgentTurn.Fire(f, t)) < TurnFuel(t)
  {
  }

  lemma {:induction false} RunLaws(sessions: nat, s0: Host, fs: seq<Firing>, s: Host)
    requires Runs(s0, fs, s) && Laws(sessions, s0)
    ensures Laws(sessions, s) && Fuel(s) + |fs| <= Fuel(s0)
    decreases fs
  {
    if fs != [] {
      match fs[0] {
        case Alice(g) =>
          AgentTurn.FiringLaws(g, s0.alice);
          TurnFiring(g, s0.alice);
        case Bob(g) =>
          AgentTurn.FiringLaws(g, s0.bob);
          TurnFiring(g, s0.bob);
        case Open =>
        case Close =>
      }
      RunLaws(sessions, Fire(fs[0], s0), fs[1..], s);
    }
  }

  /** Every run ends, for any number of sessions and any two budgets. */
  lemma RunsAreBounded(sessions: nat, alicePermits: nat, bobPermits: nat, fs: seq<Firing>, s: Host)
    requires Runs(Initial(sessions, alicePermits, bobPermits), fs, s)
    ensures |fs| <= 7 * sessions + 3 * alicePermits + 3 * bobPermits
  {
    RunLaws(sessions, Initial(sessions, alicePermits, bobPermits), fs, s);
  }

  /**
   At rest tokens lie on `done`, `escalate`, the two budgets and at most one of `fromAlice` and
   `fromBob`: all sessions neither side escalated are closed, and an answer waits only for the
   other side's escalation.
   */
  lemma Rests(sessions: nat, alicePermits: nat, bobPermits: nat, fs: seq<Firing>, s: Host)
    requires Runs(Initial(sessions, alicePermits, bobPermits), fs, s) && AtRest(s)
    ensures s.session == 0
    ensures s.alice.request == s.alice.thinking == s.alice.toolCall == s.alice.toolResult == 0
    ensures s.bob.request == s.bob.thinking == s.bob.toolCall == s.bob.toolResult == 0
    ensures s.done == sessions - if s.alice.failed > s.bob.failed then s.alice.failed else s.bob.failed
    ensures s.alice.answer == if s.bob.failed > s.alice.failed then s.bob.failed - s.alice.failed else 0
    ensures s.bob.answer == if s.alice.failed > s.bob.failed then s.alice.failed - s.bob.failed else 0
    ensures s.alice.answer > 0 || s.bob.answer > 0 ==> Escalate(s) > 0
  {
    RunLaws(sessions, Initial(sessions, alicePermits, bobPermits), fs, s);
    TurnRests(s, s.alice, true);
    TurnRests(s, s.bob, false);
    assert !Enabled(Open, s) && !Enabled(Close, s);
  }

  /** A resting host's instances rest. */
  lemma TurnRests(s: Host, t: AgentTurn.Turn, isAlice: bool)
    requires AtRest(s) && t == if isAlice then s.alice else s.bob
    ensures t.request == t.thinking == t.toolCall == t.toolResult == 0
  {
    forall g: AgentTurn.Firing
      ensures !AgentTurn.Enabled(g, t)
    {
      assert !Enabled(Alice(g), s) && !Enabled(Bob(g), s);
    }
    assert !AgentTurn.Enabled(AgentTurn.StartTurn, t) && !AgentTurn.Enabled(AgentTurn.Answer, t);
    assert !AgentTurn.Enabled(AgentTurn.Observe, t) && !AgentTurn.Enabled(AgentTurn.RunTool, t);
    assert !AgentTurn.Enabled(AgentTurn.GiveUp, t);
  }

  // ----- what can happen -------------------------------------------------------------

  lemma {:induction false} Then(s0: Host, fs: seq<Firing>, s1: Host, gs: seq<Firing>, s: Host)
    requires Runs(s0, fs, s1) && Runs(s1, gs, s)
    ensures Runs(s0, fs + gs, s)
    decreases fs
  {
    if fs == [] {
      assert fs + gs == gs;
    } else {
      Then(Fire(fs[0], s0), fs[1..], s1, gs, s);
      assert (fs + gs)[1..] == fs[1..] + gs;
    }
  }

  lemma One(f: Firing, s: Host)
    requires Enabled(f, s)
    ensures Runs(s, [f], Fire(f, s))
  {
    assert Runs(Fire(f, s), [f][1..], Fire(f, s));
  }

  /** A run of one instance is a run of the host. */
  lemma {:induction false} Lift(s: Host, gs: seq<AgentTurn.Firing>, t: AgentTurn.Turn, isAlice: bool) returns (fs: seq<Firing>)
    requires AgentTurn.Runs(AgentTurn.Fixed, if isAlice then s.alice else s.bob, gs, t)
    ensures Runs(s, fs, if isAlice then s.(alice := t) else s.(bob := t))
    decreases gs
  {
    fs := [];
    if gs != [] {
      var f := if isAlice then Alice(gs[0]) else Bob(gs[0]);
      One(f, s);
      var rest := Lift(Fire(f, s), gs[1..], t, isAlice);
      fs := [f] + rest;
      Then(s, [f], Fire(f, s), rest, if isAlice then s.(alice := t) else s.(bob := t));
    }
  }

  lemma {:induction false} OpenSome(s: Host, n: nat) returns (fs: seq<Firing>)
    requires n <= s.session
    ensures Runs(s, fs, s.(session := s.session - n, alice := s.alice.(request := s.alice.request + n),
                           bob := s.bob.(request := s.bob.request + n)))
    decreases n
  {
    fs := [];
    if n > 0 {
      One(Open, s);
      var rest := OpenSome(Fire(Open, s), n - 1);
      fs := [Open] + rest;
      Then(s, [Open], Fire(Open, s), rest, s.(session := s.session - n, alice := s.alice.(request := s.alice.request + n),
                                              bob := s.bob.(request := s.bob.request + n)));
    }
  }

  lemma {:induction false} CloseSome(s: Host, n: nat) returns (fs: seq<Firing>)
    requires n <= s.alice.answer && n <= s.bob.answer
    ensures Runs(s, fs, s.(alice := s.alice.(answer := s.alice.answer - n), bob := s.bob.(answer := s.bob.answer - n),
                           done := s.done + n))
    decreases n
  {
    fs := [];
    if n > 0 {
      One(Close, s);
      var rest := CloseSome(Fire(Close, s), n - 1);
      fs := [Close] + rest;
      Then(s, [Close], Fire(Close, s), rest,
           s.(alice := s.alice.(answer := s.alice.answer - n), bob := s.bob.(answer := s.bob.answer - n), done := s.done + n));
    }
  }

  /** One session opened, answered on both sides and closed, whatever others there are. */
  lemma OneSession(s: Host) returns (fs: seq<Firing>)
    requires s.session >= 1
    ensures Runs(s, fs, s.(session := s.session - 1, done := s.done + 1))
  {
    fs := OpenSome(s, 1);
    var begun := Fire(Open, s);
    var aliceRun := AgentTurn.AnswerSome(AgentTurn.Fixed, begun.alice, 1);
    var answered := begun.alice.(request := begun.alice.request - 1, answer := begun.alice.answer + 1);
    var gs := Lift(begun, aliceRun, answered, true);
    var half := begun.(alice := answered);
    Then(s, fs, begun, gs, half);
    var bobRun := AgentTurn.AnswerSome(AgentTurn.Fixed, half.bob, 1);
    var bobAnswered := half.bob.(request := half.bob.request - 1, answer := half.bob.answer + 1);
    var hs := Lift(half, bobRun, bobAnswered, false);
    var both := half.(bob := bobAnswered);
    Then(s, fs + gs, half, hs, both);
    var cs := CloseSome(both, 1);
    Then(s, fs + gs + hs, both, cs, s.(session := s.session - 1, done := s.done + 1));
    fs := fs + gs + hs + cs;
  }

  /** Sessions can be held one after the other: any number is done before the next is begun. */
  lemma {:induction false} OneAfterTheOther(s: Host, n: nat) returns (fs: seq<Firing>)
    requires n <= s.session
    ensures Runs(s, fs, s.(session := s.session - n, done := s.done + n))
    decreases n
  {
    fs := [];
    if n > 0 {
      var s' := s.(session := s.session - 1, done := s.done + 1);
      fs := OneSession(s);
      var rest := OneAfterTheOther(s', n - 1);
      Then(s, fs, s', rest, s.(session := s.session - n, done := s.done + n));
      fs := fs + rest;
    }
  }

  ghost predicate BudgetLaw(t: AgentTurn.Turn, permits: nat) {
    t.toolBudget <= permits && (t.failed > 0 ==> t.toolBudget == 0)
  }

  lemma FiringKeepsLaws(sessions: nat, f: Firing, s: Host)
    requires Enabled(f, s) && Laws(sessions, s)
    ensures Laws(sessions, Fire(f, s)) && sessions > 0
  {
    One(f, s);
    RunLaws(sessions, s, [f], Fire(f, s));
  }

  lemma FiringKeepsBudgets(f: Firing, s: Host, alicePermits: nat, bobPermits: nat)
    requires Enabled(f, s) && BudgetLaw(s.alice, alicePermits) && BudgetLaw(s.bob, bobPermits)
    ensures BudgetLaw(Fire(f, s).alice, alicePermits) && BudgetLaw(Fire(f, s).bob, bobPermits)
  {
  }

  lemma {:induction false} RunBudgets(sessions: nat, s0: Host, fs: seq<Firing>, s: Host, alicePermits: nat, bobPermits: nat)
    requires Runs(s0, fs, s) && Laws(sessions, s0) && BudgetLaw(s0.alice, alicePermits) && BudgetLaw(s0.bob, bobPermits)
    ensures BudgetLaw(s.alice, alicePermits) && BudgetLaw(s.bob, bobPermits)
    ensures sessions == 0 ==> s == s0
    decreases fs
  {
    if fs != [] {
      FiringKeepsLaws(sessions, fs[0], s0);
      FiringKeepsBudgets(fs[0], s0, alicePermits, bobPermits);
      RunBudgets(sessions, Fire(fs[0], s0), fs[1..], s, alicePermits, bobPermits);
    }
  }

  /** What one side has ended in, with its closed answers counted back in. */
  function Ended(t: AgentTurn.Turn, done: nat): AgentTurn.Turn {
    t.(answer := t.answer + done)
  }

  /** Either side has ended as a turn on its own can, and no answer is left that the other side matches. */
  ghost predicate CanEndIn(sessions: nat, alicePermits: nat, bobPermits: nat, s: Host) {
    && s.session == 0 && (s.alice.answer == 0 || s.bob.answer == 0)
    && AgentTurn.CanEndIn(sessions, alicePermits, Ended(s.alice, s.done))
    && AgentTurn.CanEndIn(sessions, bobPermits, Ended(s.bob, s.done))
  }

  lemma EndReached(sessions: nat, alicePermits: nat, bobPermits: nat, s: Host) returns (fs: seq<Firing>)
    requires CanEndIn(sessions, alicePermits, bobPermits, s)
    ensures Runs(Initial(sessions, alicePermits, bobPermits), fs, s)
  {
    var s0 := Initial(sessions, alicePermits, bobPermits);
    var begun := Host(0, AgentTurn.InitialTurn(sessions, alicePermits), AgentTurn.InitialTurn(sessions, bobPermits), 0);
    fs := OpenSome(s0, sessions);
    var aliceRun := AgentTurn.EndReached(sessions, alicePermits, Ended(s.alice, s.done));
    var gs := Lift(begun, aliceRun, Ended(s.alice, s.done), true);
    var half := begun.(alice := Ended(s.alice, s.done));
    Then(s0, fs, begun, gs, half);
    var bobRun := AgentTurn.EndReached(sessions, bobPermits, Ended(s.bob, s.done));
    var hs := Lift(half, bobRun, Ended(s.bob, s.done), false);
    var both := half.(bob := Ended(s.bob, s.done));
    Then(s0, fs + gs, half, hs, both);
    var cs := CloseSome(both, s.done);
    Then(s0, fs + gs + hs, both, cs, s);
    fs := fs + gs + hs + cs;
  }

  ghost predicate Reachable(sessions: nat, alicePermits: nat, bobPermits: nat, s: Host) {
    exists fs :: Runs(Initial(sessions, alicePermits, bobPermits), fs, s)
  }

  lemma RestsAsTurnsDo(sessions: nat, alicePermits: nat, bobPermits: nat, s: Host)
    requires Reachable(sessions, alicePermits, bobPermits, s) && AtRest(s)
    ensures CanEndIn(sessions, alicePermits, bobPermits, s)
  {
    var s0 := Initial(sessions, alicePermits, bobPermits);
    var fs :| Runs(s0, fs, s);
    Rests(sessions, alicePermits, bobPermits, fs, s);
    RunLaws(sessions, s0, fs, s);
    RunBudgets(sessions, s0, fs, s, alicePermits, bobPermits);
  }

  lemma EndsAtRest(sessions: nat, alicePermits: nat, bobPermits: nat, s: Host)
    requires CanEndIn(sessions, alicePermits, bobPermits, s)
    ensures AtRest(s)
  {
  }

  /** The states in which the host can come to rest, exactly. */
  lemma RestingHostsExactly(sessions: nat, alicePermits: nat, bobPermits: nat, s: Host)
    ensures Reachable(sessions, alicePermits, bobPermits, s) && AtRest(s) <==> CanEndIn(sessions, alicePermits, bobPermits, s)
  {
    if Reachable(sessions, alicePermits, bobPermits, s) && AtRest(s) {
      RestsAsTurnsDo(sessions, alicePermits, bobPermits, s);
    }
    if CanEndIn(sessions, alicePermits, bobPermits, s) {
      var fs := EndReached(sessions, alicePermits, bobPermits, s);
      EndsAtRest(sessions, alicePermits, bobPermits, s);
    }
  }
}
