/**
 One LLM-agent turn for any number of requests and tool permits, and the version without `give-up`.
 */
module AgentTurn {

  datatype Turn = Turn(
    request: nat, thinking: nat, toolCall: nat, toolResult: nat, toolBudget: nat, answer: nat, failed: nat)

  /** A transition with the output branch its action takes. */
  datatype Firing = StartTurn | AskTool | Answer | RunTool | ToolTimesOut | Observe | GiveUp

  predicate Enabled(f: Firing, s: Turn) {
    match f
    case StartTurn => s.request >= 1
    case AskTool => s.thinking >= 1
    case Answer => s.thinking >= 1
    case RunTool => s.toolCall >= 1 && s.toolBudget >= 1
    case ToolTimesOut => s.toolCall >= 1 && s.toolBudget >= 1
    case Observe => s.toolResult >= 1
    case GiveUp => s.toolCall >= 1 && s.toolBudget == 0
  }

  /** An expired tool run forwards its call back to `thinking`; its permit stays spent. */
  function Fire(f: Firing, s: Turn): Turn
    requires Enabled(f, s)
  {
    match f
    case StartTurn => s.(request := s.request - 1, thinking := s.thinking + 1)
    case AskTool => s.(thinking := s.thinking - 1, toolCall := s.toolCall + 1)
    case Answer => s.(thinking := s.thinking - 1, answer := s.answer + 1)
    case RunTool => s.(toolCall := s.toolCall - 1, toolBudget := s.toolBudget - 1, toolResult := s.toolResult + 1)
    case ToolTimesOut => s.(toolCall := s.toolCall - 1, toolBudget := s.toolBudget - 1, thinking := s.thinking + 1)
    case Observe => s.(toolResult := s.toolResult - 1, thinking := s.thinking + 1)
    case GiveUp => s.(toolCall := s.toolCall - 1, failed := s.failed + 1)
  }

  function InitialTurn(requests: nat, permits: nat): Turn {
    Turn(requests, 0, 0, 0, permits, 0, 0)
  }

  /** The planted bug is the same net without `give-up`. */
  datatype Version = Fixed | Buggy

  predicate InNet(v: Version, f: Firing) {
    v.Fixed? || f != GiveUp
  }

  /** From `s0`, firing `fs` in order leads to `s`. */
  predicate Runs(v: Version, s0: Turn, fs: seq<Firing>, s: Turn)
    decreases fs
  {
    if fs == [] then s == s0
    else InNet(v, fs[0]) && Enabled(fs[0], s0) && Runs(v, Fire(fs[0], s0), fs[1..], s)
  }

  ghost predicate AtRest(v: Version, s: Turn) {
    forall f :: InNet(v, f) ==> !Enabled(f, s)
  }

  // ----- the net as arcs -------------------------------------------------------------

  const NOTHING := Turn(0, 0, 0, 0, 0, 0, 0)

  function Plus(a: Turn, b: Turn): Turn {
    Turn(a.request + b.request, a.thinking + b.thinking, a.toolCall + b.toolCall, a.toolResult + b.toolResult,
         a.toolBudget + b.toolBudget, a.answer + b.answer, a.failed + b.failed)
  }

  /** The tokens on the input arcs. */
  function Takes(f: Firing): Turn {
    match f
    case StartTurn => NOTHING.(request := 1)
    case AskTool => NOTHING.(thinking := 1)
    case Answer => NOTHING.(thinking := 1)
    case RunTool => NOTHING.(toolCall := 1, toolBudget := 1)
    case ToolTimesOut => NOTHING.(toolCall := 1, toolBudget := 1)
    case Observe => NOTHING.(toolResult := 1)
    case GiveUp => NOTHING.(toolCall := 1)
  }

  /** The tokens on the output arcs of the branch taken. */
  function Gives(f: Firing): Turn {
    match f
    case StartTurn => NOTHING.(thinking := 1)
    case AskTool => NOTHING.(toolCall := 1)
    case Answer => NOTHING.(answer := 1)
    case RunTool => NOTHING.(toolResult := 1)
    case ToolTimesOut => NOTHING.(thinking := 1)
    case Observe => NOTHING.(thinking := 1)
    case GiveUp => NOTHING.(failed := 1)
  }

  /** A firing replaces the tokens on its inputs by those on its outputs; `give-up` needs an empty budget. */
  lemma FiresByArcs(f: Firing, s: Turn, s': Turn)
    ensures Enabled(f, s) && s' == Fire(f, s) <==>
      (exists rest :: s == Plus(rest, Takes(f)) && s' == Plus(rest, Gives(f))) && (f.GiveUp? ==> s.toolBudget == 0)
  {
    if Enabled(f, s) {
      var t := Takes(f);
      var rest := Turn(s.request - t.request, s.thinking - t.thinking, s.toolCall - t.toolCall, s.toolResult - t.toolResult,
                       s.toolBudget - t.toolBudget, s.answer, s.failed);
      assert s == Plus(rest, t) && Fire(f, s) == Plus(rest, Gives(f));
    }
  }

  // ----- the fixed net ---------------------------------------------------------------

  /** What is left to fire, at most. */
  function Fuel(s: Turn): nat {
    3 * s.request + 2 * s.thinking + s.toolCall + 3 * s.toolResult + 3 * s.toolBudget
  }

  /** Requests are somewhere until they are answered or have failed. */
  function Requests(s: Turn): nat {
    s.request + s.thinking + s.toolCall + s.toolResult + s.answer + s.failed
  }

  /** Each firing burns fuel and moves requests on. */
  lemma FiringLaws(f: Firing, s: Turn)
    requires Enabled(f, s)
    ensures Fuel(Fire(f, s)) < Fuel(s)
    ensures Requests(Fire(f, s)) == Requests(s)
    ensures f != GiveUp ==> Fire(f, s).failed == s.failed
  {
  }

  lemma {:induction false} RunLaws(v: Version, s0: Turn, fs: seq<Firing>, s: Turn)
    requires Runs(v, s0, fs, s)
    ensures Fuel(s) + |fs| <= Fuel(s0)
    ensures Requests(s) == Requests(s0)
    ensures v.Buggy? ==> s.failed == s0.failed
    decreases fs
  {
    if fs != [] {
      FiringLaws(fs[0], s0);
      RunLaws(v, Fire(fs[0], s0), fs[1..], s);
    }
  }

  /** Every run ends within three firings per request and per permit. */
  lemma RunsAreBounded(v: Version, requests: nat, permits: nat, fs: seq<Firing>, s: Turn)
    requires Runs(v, InitialTurn(requests, permits), fs, s)
    ensures |fs| <= 3 * requests + 3 * permits
  {
    RunLaws(v, InitialTurn(requests, permits), fs, s);
  }

  /** The fixed net rests exactly when every request is answered or has failed. */
  lemma FixedRests(requests: nat, permits: nat, fs: seq<Firing>, s: Turn)
    requires Runs(Fixed, InitialTurn(requests, permits), fs, s)
    ensures AtRest(Fixed, s) <==> s.answer + s.failed == requests
    ensures AtRest(Fixed, s) ==> s.request == s.thinking == s.toolCall == s.toolResult == 0
  {
    RunLaws(Fixed, InitialTurn(requests, permits), fs, s);
    if AtRest(Fixed, s) {
      assert !Enabled(StartTurn, s) && !Enabled(Answer, s) && !Enabled(Observe, s);
      assert !Enabled(RunTool, s) && !Enabled(GiveUp, s);
    }
  }

  /** Runs compose. */
  lemma {:induction false} Then(v: Version, s0: Turn, fs: seq<Firing>, s1: Turn, gs: seq<Firing>, s: Turn)
    requires Runs(v, s0, fs, s1) && Runs(v, s1, gs, s)
    ensures Runs(v, s0, fs + gs, s)
    decreases fs
  {
    if fs == [] {
      assert fs + gs == gs;
    } else {
      Then(v, Fire(fs[0], s0), fs[1..], s1, gs, s);
      assert (fs + gs)[1..] == fs[1..] + gs;
    }
  }

  lemma OneFiring(v: Version, f: Firing, s: Turn)
    requires InNet(v, f) && Enabled(f, s)
    ensures Runs(v, s, [f], Fire(f, s))
  {
    assert Runs(v, Fire(f, s), [f][1..], Fire(f, s));
  }

  /** Firing three transitions in order. */
  lemma ThreeFirings(v: Version, a: Firing, b: Firing, c: Firing, s: Turn)
    requires InNet(v, a) && InNet(v, b) && InNet(v, c)
    requires Enabled(a, s) && Enabled(b, Fire(a, s)) && Enabled(c, Fire(b, Fire(a, s)))
    ensures Runs(v, s, [a, b, c], Fire(c, Fire(b, Fire(a, s))))
  {
    OneFiring(v, a, s);
    OneFiring(v, b, Fire(a, s));
    OneFiring(v, c, Fire(b, Fire(a, s)));
    Then(v, s, [a], Fire(a, s), [b], Fire(b, Fire(a, s)));
    assert [a] + [b] == [a, b];
    Then(v, s, [a, b], Fire(b, Fire(a, s)), [c], Fire(c, Fire(b, Fire(a, s))));
    assert [a, b] + [c] == [a, b, c];
  }

  /** From a tool call: some tool runs time out, the others return, and the permits are spent. */
  lemma {:induction false} ToolRuns(v: Version, s: Turn, late: nat) returns (fs: seq<Firing>)
    requires s.toolCall >= 1 && late <= s.toolBudget
    ensures Runs(v, s, fs, s.(toolBudget := 0)) && |fs| == 3 * s.toolBudget - late
    decreases s.toolBudget
  {
    if s.toolBudget == 0 {
      fs := [];
    } else {
      var s' := s.(toolBudget := s.toolBudget - 1);
      if late > 0 {
        OneFiring(v, ToolTimesOut, s);
        OneFiring(v, AskTool, Fire(ToolTimesOut, s));
        Then(v, s, [ToolTimesOut], Fire(ToolTimesOut, s), [AskTool], s');
        var gs := ToolRuns(v, s', late - 1);
        fs := [ToolTimesOut] + [AskTool] + gs;
        Then(v, s, [ToolTimesOut] + [AskTool], s', gs, s.(toolBudget := 0));
      } else {
        ThreeFirings(v, RunTool, Observe, AskTool, s);
        var gs := ToolRuns(v, s', 0);
        fs := [RunTool, Observe, AskTool] + gs;
        Then(v, s, [RunTool, Observe, AskTool], s', gs, s.(toolBudget := 0));
      }
    }
  }

  /** A request taken to its tool call. */
  lemma ToFirstCall(v: Version, s: Turn)
    requires s.request >= 1
    ensures Runs(v, s, [StartTurn] + [AskTool], s.(request := s.request - 1, toolCall := s.toolCall + 1))
  {
    OneFiring(v, StartTurn, s);
    OneFiring(v, AskTool, Fire(StartTurn, s));
    Then(v, s, [StartTurn], Fire(StartTurn, s), [AskTool], s.(request := s.request - 1, toolCall := s.toolCall + 1));
  }

  lemma {:induction false} GiveUpAll(s: Turn) returns (fs: seq<Firing>)
    requires s.toolBudget == 0
    ensures Runs(Fixed, s, fs, s.(request := 0, failed := s.failed + s.request)) && |fs| == 3 * s.request
    decreases s.request
  {
    fs := [];
    if s.request > 0 {
      var s' := s.(request := s.request - 1, failed := s.failed + 1);
      ThreeFirings(Fixed, StartTurn, AskTool, GiveUp, s);
      var gs := GiveUpAll(s');
      fs := [StartTurn, AskTool, GiveUp] + gs;
      Then(Fixed, s, [StartTurn, AskTool, GiveUp], s', gs, s.(request := 0, failed := s.failed + s.request));
    }
  }

  /** The bound is sharp: some run spends every permit on its first request and gives up the rest. */
  lemma BoundIsReached(requests: nat, permits: nat) returns (fs: seq<Firing>)
    requires requests >= 1
    ensures Runs(Fixed, InitialTurn(requests, permits), fs, Turn(0, 0, 0, 0, 0, 0, requests))
    ensures |fs| == 3 * requests + 3 * permits
  {
    var s0 := InitialTurn(requests, permits);
    var called := s0.(request := requests - 1, toolCall := 1);
    var spent := called.(toolBudget := 0);
    ToFirstCall(Fixed, s0);
    var gs := ToolRuns(Fixed, called, 0);
    Then(Fixed, s0, [StartTurn] + [AskTool], called, gs, spent);
    OneFiring(Fixed, GiveUp, spent);
    var hs := GiveUpAll(Fire(GiveUp, spent));
    fs := [StartTurn] + [AskTool] + gs;
    Then(Fixed, s0, fs, spent, [GiveUp], Fire(GiveUp, spent));
    Then(Fixed, s0, fs + [GiveUp], Fire(GiveUp, spent), hs, Turn(0, 0, 0, 0, 0, 0, requests));
    fs := fs + [GiveUp] + hs;
  }

  // ----- how a turn can end ----------------------------------------------------------

  /** Permits are only ever spent, and nothing fails before they all are. */
  lemma {:induction false} PermitLaws(v: Version, s0: Turn, fs: seq<Firing>, s: Turn)
    requires Runs(v, s0, fs, s) && (s0.failed > 0 ==> s0.toolBudget == 0)
    ensures s.toolBudget <= s0.toolBudget && (s.failed > 0 ==> s.toolBudget == 0)
    decreases fs
  {
    if fs != [] {
      PermitLaws(v, Fire(fs[0], s0), fs[1..], s);
    }
  }

  lemma NothingToDo(v: Version, s0: Turn, fs: seq<Firing>, s: Turn)
    requires Runs(v, s0, fs, s) && s0.request == s0.thinking == s0.toolCall == s0.toolResult == 0
    ensures s == s0
  {
  }

  /** A thinking turn spends `n` permits and thinks on. */
  lemma {:induction false} SpendPermits(v: Version, s: Turn, n: nat) returns (fs: seq<Firing>)
    requires s.thinking >= 1 && n <= s.toolBudget
    ensures Runs(v, s, fs, s.(toolBudget := s.toolBudget - n))
    decreases n
  {
    fs := [];
    if n > 0 {
      var s' := s.(toolBudget := s.toolBudget - 1);
      ThreeFirings(v, AskTool, RunTool, Observe, s);
      var gs := SpendPermits(v, s', n - 1);
      fs := [AskTool, RunTool, Observe] + gs;
      Then(v, s, [AskTool, RunTool, Observe], s', gs, s.(toolBudget := s.toolBudget - n));
    }
  }

  lemma {:induction false} AnswerSome(v: Version, s: Turn, n: nat) returns (fs: seq<Firing>)
    requires n <= s.request
    ensures Runs(v, s, fs, s.(request := s.request - n, answer := s.answer + n))
    decreases n
  {
    fs := [];
    if n > 0 {
      var s' := s.(request := s.request - 1, answer := s.answer + 1);
      OneFiring(v, StartTurn, s);
      OneFiring(v, Answer, Fire(StartTurn, s));
      Then(v, s, [StartTurn], Fire(StartTurn, s), [Answer], s');
      var gs := AnswerSome(v, s', n - 1);
      fs := [StartTurn] + [Answer] + gs;
      Then(v, s, [StartTurn] + [Answer], s', gs, s.(request := s.request - n, answer := s.answer + n));
    }
  }

  /** The first request thinks until only `left` permits are there, and is answered or gives up. */
  lemma FirstRequest(s: Turn, left: nat, answered: bool) returns (fs: seq<Firing>)
    requires s.request >= 1 && left <= s.toolBudget && (!answered ==> left == 0)
    ensures var s' := s.(request := s.request - 1, toolBudget := left);
      Runs(Fixed, s, fs, if answered then s'.(answer := s.answer + 1) else s'.(failed := s.failed + 1))
  {
    var thinking := Fire(StartTurn, s);
    var spent := thinking.(toolBudget := left);
    OneFiring(Fixed, StartTurn, s);
    var gs := SpendPermits(Fixed, thinking, thinking.toolBudget - left);
    fs := [StartTurn] + gs;
    Then(Fixed, s, [StartTurn], thinking, gs, spent);
    if answered {
      OneFiring(Fixed, Answer, spent);
      Then(Fixed, s, fs, spent, [Answer], Fire(Answer, spent));
      fs := fs + [Answer];
    } else {
      OneFiring(Fixed, AskTool, spent);
      var called := Fire(AskTool, spent);
      Then(Fixed, s, fs, spent, [AskTool], called);
      OneFiring(Fixed, GiveUp, called);
      Then(Fixed, s, fs + [AskTool], called, [GiveUp], Fire(GiveUp, called));
      fs := fs + [AskTool] + [GiveUp];
    }
  }

  /** Every request answered or failed, permits left over only if none failed, and all if there was none. */
  ghost predicate CanEndIn(requests: nat, permits: nat, s: Turn) {
    && s.request == s.thinking == s.toolCall == s.toolResult == 0
    && s.answer + s.failed == requests && s.toolBudget <= permits
    && (s.failed > 0 ==> s.toolBudget == 0) && (requests == 0 ==> s.toolBudget == permits)
  }

  /** The other requests: some answered, the rest given up. */
  lemma OtherRequests(s: Turn, answers: nat, t: Turn) returns (fs: seq<Firing>)
    requires answers <= s.request && (answers < s.request ==> s.toolBudget == 0)
    requires t == s.(request := 0, answer := s.answer + answers, failed := s.failed + s.request - answers)
    ensures Runs(Fixed, s, fs, t)
  {
    fs := AnswerSome(Fixed, s, answers);
    if answers < s.request {
      var rest := s.(request := s.request - answers, answer := s.answer + answers);
      var hs := GiveUpAll(rest);
      Then(Fixed, s, fs, rest, hs, t);
      fs := fs + hs;
    }
  }

  lemma EndReached(requests: nat, permits: nat, s: Turn) returns (fs: seq<Firing>)
    requires CanEndIn(requests, permits, s)
    ensures Runs(Fixed, InitialTurn(requests, permits), fs, s)
  {
    var s0 := InitialTurn(requests, permits);
    fs := [];
    if requests > 0 {
      var answered := s.answer > 0;
      fs := FirstRequest(s0, s.toolBudget, answered);
      var s1 := Turn(requests - 1, 0, 0, 0, s.toolBudget, if answered then 1 else 0, if answered then 0 else 1);
      var gs := OtherRequests(s1, if answered then s.answer - 1 else 0, s);
      Then(Fixed, s0, fs, s1, gs, s);
      fs := fs + gs;
    }
  }

  /** Some run ends in `s`. */
  ghost predicate Reachable(v: Version, requests: nat, permits: nat, s: Turn) {
    exists fs :: Runs(v, InitialTurn(requests, permits), fs, s)
  }

  /** The states in which the fixed net can come to rest, exactly. */
  lemma RestingStatesExactly(requests: nat, permits: nat, s: Turn)
    ensures Reachable(Fixed, requests, permits, s) && AtRest(Fixed, s) <==> CanEndIn(requests, permits, s)
  {
    if Reachable(Fixed, requests, permits, s) {
      var fs :| Runs(Fixed, InitialTurn(requests, permits), fs, s);
      FixedRests(requests, permits, fs, s);
      PermitLaws(Fixed, InitialTurn(requests, permits), fs, s);
      if requests == 0 {
        NothingToDo(Fixed, InitialTurn(requests, permits), fs, s);
      }
    }
    if CanEndIn(requests, permits, s) {
      var fs := EndReached(requests, permits, s);
      FixedRests(requests, permits, fs, s);
      assert Reachable(Fixed, requests, permits, s);
    }
  }

  // ----- the planted bug -------------------------------------------------------------

  /** At rest with a request neither answered nor failed. */
  ghost predicate Stuck(v: Version, s: Turn) {
    AtRest(v, s) && s.answer + s.failed < Requests(s)
  }

  /** One request under way: how many firings away it is from being stuck. */
  lemma {:induction false} StuckAfter(s0: Turn, fs: seq<Firing>, s: Turn)
    requires Runs(Buggy, s0, fs, s) && Stuck(Buggy, s)
    requires s0.request + s0.thinking + s0.toolCall + s0.toolResult == 1 && Requests(s0) == 1
    ensures var head := if s0.toolCall == 1 then 0 else if s0.thinking == 1 then 1 else 2;
      2 * s0.toolBudget + head <= |fs| <= 3 * s0.toolBudget + head
    decreases fs
  {
    if fs == [] {
      assert !Enabled(StartTurn, s) && !Enabled(Answer, s) && !Enabled(Observe, s) && !Enabled(RunTool, s);
    } else {
      AnsweredStays(Fire(fs[0], s0), fs[1..], s);
      StuckAfter(Fire(fs[0], s0), fs[1..], s);
    }
  }

  /** Once the only request is answered the run is over, and not stuck. */
  lemma AnsweredStays(s0: Turn, fs: seq<Firing>, s: Turn)
    requires Runs(Buggy, s0, fs, s)
    ensures s0.request == s0.thinking == s0.toolCall == s0.toolResult == 0 ==> s == s0 && !Stuck(Buggy, s)
  {
  }

  /** Every length in between is that of a stuck run: it lets that many tool runs time out. */
  lemma StuckRun(permits: nat, n: nat) returns (fs: seq<Firing>, s: Turn)
    requires 2 * permits + 2 <= n <= 3 * permits + 2
    ensures |fs| == n && Runs(Buggy, InitialTurn(1, permits), fs, s) && Stuck(Buggy, s)
  {
    var s0 := InitialTurn(1, permits);
    var called := s0.(request := 0, toolCall := 1);
    s := called.(toolBudget := 0);
    ToFirstCall(Buggy, s0);
    var gs := ToolRuns(Buggy, called, 3 * permits + 2 - n);
    fs := [StartTurn] + [AskTool] + gs;
    Then(Buggy, s0, [StartTurn] + [AskTool], called, gs, s);
  }

  /**
   Without `give-up` one request gets stuck, and it does so in exactly the run lengths from
   2k + 2 (every tool run timed out) to 3k + 2 (every one returned).
   */
  lemma StuckRunLengths(permits: nat, n: nat)
    ensures (exists fs, s :: |fs| == n && Runs(Buggy, InitialTurn(1, permits), fs, s) && Stuck(Buggy, s)) <==>
            2 * permits + 2 <= n <= 3 * permits + 2
  {
    if fs, s :| |fs| == n && Runs(Buggy, InitialTurn(1, permits), fs, s) && Stuck(Buggy, s) {
      StuckAfter(InitialTurn(1, permits), fs, s);
    }
    if 2 * permits + 2 <= n <= 3 * permits + 2 {
      var fs, s := StuckRun(permits, n);
    }
  }

  /** With `give-up` no run gets stuck, whatever the number of requests and permits. */
  lemma FixedNeverStuck(requests: nat, permits: nat, fs: seq<Firing>, s: Turn)
    requires Runs(Fixed, InitialTurn(requests, permits), fs, s)
    ensures !Stuck(Fixed, s)
  {
    FixedRests(requests, permits, fs, s);
    RunLaws(Fixed, InitialTurn(requests, permits), fs, s);
  }
}
