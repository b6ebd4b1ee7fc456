/** What the laws of the debug net mean for its users: order, progress, and clean session switches. */
module DebugTheorems {
  import opened DebugNet
  import opened DebugLaws

  // ----- the stated place invariants -------------------------------------------------

  /**
   The place invariants with the running actions counted in: one session phase, one mode of a
   subscribed session, one mode of a replay, and `uiState` exactly while a session is
   subscribed; one breakpoint list and one connection state.
   */
  lemma PlaceInvariants(s: State)
    requires Reachable(s)
    ensures var m := s.marking;
      && m.noSession + m.subscribing + m.subscribedSession + Held(Phase, s.flights) == 1
      && m.subscribedSession == m.liveSession + m.replaySession
      && m.replaySession == m.replayPaused + m.replayPlaying + m.breakpointPaused + Held(ModeToken, s.flights)
      && m.subscribedSession == m.uiState + Held(TheState, s.flights)
      && m.breakpoints + Held(TheBreakpoints, s.flights) == 1
      && m.idle + m.connecting + m.connected + m.waitReconnect + Held(Connection, s.flights) == 1
      && m.routerReady + |s.routed| + |s.letters| + Held(Permit, s.flights) == 1
  {
    ReachableKeeps(s);
    InHandCount(s.flights);
    SessionKindUnheld(s.flights);
    assert |InTransit(s)| == |s.routed| + |s.letters| + |InHand(s.flights)|;
    assert TokenLaw(Phase, s) && TokenLaw(SessionKind, s) && TokenLaw(ModeToken, s) && TokenLaw(TheState, s);
    assert TokenLaw(TheBreakpoints, s) && TokenLaw(Connection, s);
  }

  // ----- order -----------------------------------------------------------------------

  /** Messages are dealt with in the order they arrived, across all types; none is lost or repeated. */
  lemma ArrivalOrder(s: State)
    requires Reachable(s)
    ensures s.arrived == s.done + InTransit(s) + s.waiting && |InTransit(s)| <= 1
    ensures s.done <= s.arrived
  {
    ReachableKeeps(s);
  }

  // ----- switching sessions ----------------------------------------------------------

  /** While a switch is running, nothing of the session it left is anywhere: no token, no action. */
  lemma SwitchLeavesNothing(s: State, mode: Mode)
    requires Reachable(s) && InFlight(SwitchFrom(mode), s)
    ensures var m := s.marking;
      && m.subscribedSession == m.liveSession == m.replaySession == m.uiState == 0
      && m.replayPaused == m.replayPlaying == m.breakpointPaused == 0
      && m.noSession == m.subscribing == 0
    ensures forall i :: 0 <= i < |s.flights| ==>
      Holds(TheState, s.flights[i].t) == 0 && Holds(ModeToken, s.flights[i].t) == 0
  {
    PlaceInvariants(s);
    var k :| 0 <= k < |s.flights| && s.flights[k].t == SwitchFrom(mode);
    HeldRemove(Phase, s.flights, k);
    forall i | 0 <= i < |s.flights|
      ensures Holds(TheState, s.flights[i].t) == 0 && Holds(ModeToken, s.flights[i].t) == 0
    {
      HeldByNone(TheState, s.flights, i);
      HeldByNone(ModeToken, s.flights, i);
    }
  }

  lemma NotInFlight(r: Resource, s: State, t: Transition)
    requires Held(r, s.flights) == 0 && Holds(r, t) == 1
    ensures !InFlight(t, s)
  {
    if i :| 0 <= i < |s.flights| && s.flights[i].t == t {
      HeldByNone(r, s.flights, i);
    }
  }

  /**
   When a session has been selected and the connection is up, exactly one switch can take the
   whole session back, unless a playback action is holding a part of it.
   */
  lemma ExactlyOneSwitch(s: State)
    requires Reachable(s)
    requires s.marking.userSelectSession >= 1 && s.marking.connected >= 1 && s.marking.uiState >= 1
    ensures Held(ModeToken, s.flights) == 0 ==> exists mode :: CanStart(SwitchFrom(mode), s)
    ensures forall a, b :: CanStart(SwitchFrom(a), s) && CanStart(SwitchFrom(b), s) ==> a == b
  {
    PlaceInvariants(s);
    var m := s.marking;
    if Held(ModeToken, s.flights) == 0 {
      var mode := if m.liveSession >= 1 then Live else if m.replayPaused >= 1 then Paused
                  else if m.replayPlaying >= 1 then Playing else AtBreakpoint;
      NotInFlight(Phase, s, SwitchFrom(mode));
      assert CanStart(SwitchFrom(mode), s);
    }
  }

  // ----- progress of the router ------------------------------------------------------

  ghost predicate CanHandle(s: State) {
    exists t :: HandlesKind(t) && CanStart(t, s)
  }

  /** The action of flight `i` is all the router waits for: whichever leg it writes, a handler can start. */
  ghost predicate Unblocks(s: State, i: nat) {
    && i < |s.flights| && !Routes(s.flights[i].t)
    && forall leg, s' :: Completes(s, i, leg, s') ==> CanHandle(s')
  }

  /** With a message routed, no action of the router is running. */
  lemma RouterRests(s: State)
    requires Reachable(s) && (s.routed != [] || s.letters != [])
    ensures forall t :: Routes(t) ==> !InFlight(t, s)
    ensures |s.routed| <= 1 && forall i :: 0 <= i < |s.routed| ==> s.routed[i].Known?
  {
    PlaceInvariants(s);
    ReachableKeeps(s);
    forall t | Routes(t)
      ensures !InFlight(t, s)
    {
      NotInFlight(Permit, s, t);
    }
  }

  /** The handler a routed message of type `k` waits for, given what the marking holds. */
  function HandlerFor(k: Kind, m: Marking): (t: Transition)
    ensures HandlesKind(t) && KindOf(t) == k && InNet(t)
  {
    if IsPlain(k) then OnMessage(k)
    else if IsSessionMessage(k) && m.subscribedSession == 0 then DropWithoutSession(k)
    else
      match k
      case Subscribed => if m.subscribing >= 1 then OnSubscribed else DropSubscribed
      case SessionList => if m.deepLink >= 1 then OnSessionListDeepLink else OnSessionList
      case ArchiveImported => OnArchiveImported
      case BreakpointList => OnBreakpointList
      case Event => OnEvent
      case MarkingSnapshot => OnMarkingSnapshot
      case _ => if m.liveSession >= 1 then OnEventBatch else OnReplayEventBatch
  }

  /** What the handler may still have to wait for: the state of the session, or the breakpoints. */
  function Awaited(k: Kind, m: Marking): Resource {
    if IsSessionMessage(k) && m.subscribedSession > 0 then TheState else TheBreakpoints
  }

  predicate Supplied(k: Kind, m: Marking) {
    && (IsSessionMessage(k) && m.subscribedSession > 0 ==> m.uiState >= 1)
    && (k == BreakpointList ==> m.breakpoints >= 1)
  }

  lemma HandlerEnabled(k: Kind, m: Marking)
    requires Supplied(k, m) && m.subscribedSession == m.liveSession + m.replaySession
    ensures Enabled(HandlerFor(k, m), m)
  {
  }

  lemma SuppliedCanHandle(s: State)
    requires Reachable(s) && s.routed != [] && s.routed[0].Known? && Supplied(s.routed[0].kind, s.marking)
    ensures CanHandle(s)
  {
    var t := HandlerFor(s.routed[0].kind, s.marking);
    PlaceInvariants(s);
    RouterRests(s);
    HandlerEnabled(s.routed[0].kind, s.marking);
    assert Routes(t) && Takes(t, s.routed[0]);
    assert CanStart(t, s);
  }

  lemma StepReachable(s: State, a: Action, s': State)
    requires Reachable(s) && Next(s, a, s')
    ensures Reachable(s')
  {
    var ss, acts :| IsRun(ss, acts) && ss[|acts|] == s;
    var ss', acts' := ss + [s'], acts + [a];
    forall i: nat | i < |acts'|
      ensures NextAt(ss', acts', i)
    {
      if i < |acts| {
        assert NextAt(ss, acts, i);
      }
    }
    assert IsRun(ss', acts');
  }

  /** Only these actions hold the state or the breakpoints without routing a message. */
  lemma HolderGivesBack(t: Transition, m: Marking, leg: nat)
    requires !Routes(t) && leg < |Legs(t, m)|
    ensures Holds(TheState, t) == 1 ==> Legs(t, m)[leg].marking.uiState == m.uiState + 1
    ensures Holds(TheBreakpoints, t) == 1 ==> Legs(t, m)[leg].marking.breakpoints == m.breakpoints + 1
    ensures Holds(TheState, t) == 1 || Holds(TheBreakpoints, t) == 1 ==>
      Legs(t, m)[leg].marking.subscribedSession == m.subscribedSession && Legs(t, m)[leg].ending.NoMessage?
  {
  }

  /**
   The router never wedges: a routed message can be taken at once, or some running action
   holds the token its handler needs and gives it back on every leg.
   */
  lemma NeverWedged(s: State)
    requires Reachable(s) && s.routed != []
    ensures CanHandle(s) || exists i :: Unblocks(s, i)
  {
    RouterRests(s);
    PlaceInvariants(s);
    var k := s.routed[0].kind;
    if Supplied(k, s.marking) {
      SuppliedCanHandle(s);
    } else {
      var r := Awaited(k, s.marking);
      var i := HeldBySome(r, s.flights);
      assert InFlight(s.flights[i].t, s);
      forall leg, s' | Completes(s, i, leg, s')
        ensures CanHandle(s')
      {
        StepReachable(s, Complete(i, leg), s');
        HolderGivesBack(s.flights[i].t, s.marking, leg);
        SuppliedCanHandle(s');
      }
      assert Unblocks(s, i);
    }
  }

  /** A dead letter can always be logged. */
  lemma LettersAreLogged(s: State)
    requires Reachable(s) && s.letters != []
    ensures CanStart(LogDeadLetter, s)
  {
    RouterRests(s);
  }

  /** How many endings of the router's actions a message held by `t` is away from its end, at most. */
  function Stage(t: Transition): nat {
    if t.RouteMessage? then 3 else if t.LogDeadLetter? then 1 else if HandlesKind(t) then 2 else 0
  }

  /** The weights of the running actions, summed. */
  function Weigh(weight: Transition -> nat, fs: seq<Flight>): nat {
    if fs == [] then 0 else Weigh(weight, fs[..|fs| - 1]) + weight(fs[|fs| - 1].t)
  }

  lemma WeighAppend(weight: Transition -> nat, fs: seq<Flight>, f: Flight)
    ensures Weigh(weight, fs + [f]) == Weigh(weight, fs) + weight(f.t)
  {
    assert (fs + [f])[..|fs|] == fs;
  }

  lemma {:induction false} WeighRemove(weight: Transition -> nat, fs: seq<Flight>, i: nat)
    requires i < |fs|
    ensures Weigh(weight, RemoveAt(fs, i)) + weight(fs[i].t) == Weigh(weight, fs)
  {
    var n := |fs| - 1;
    RemoveAtLast(fs, i);
    if i < n {
      WeighRemove(weight, fs[..n], i);
      WeighAppend(weight, RemoveAt(fs[..n], i), fs[n]);
    }
  }

  /** How many of the router's actions have still to end before the permit is back, at most. */
  function Distance(s: State): nat {
    2 * |s.routed| + |s.letters| + Weigh(Stage, s.flights)
  }

  lemma {:induction false} StagesOfHeld(fs: seq<Flight>)
    ensures Weigh(Stage, fs) >= Held(Permit, fs)
    ensures Held(Permit, fs) == 0 ==> Weigh(Stage, fs) == 0
  {
    if fs != [] {
      StagesOfHeld(fs[..|fs| - 1]);
    }
  }

  lemma DistanceZeroIffReady(s: State)
    requires Reachable(s)
    ensures Distance(s) == 0 <==> s.marking.routerReady == 1
    ensures s.routed != [] ==> Distance(s) == 2
  {
    PlaceInvariants(s);
    StagesOfHeld(s.flights);
  }

  /**
   Once a message is routed the permit is back after at most two further endings of the
   router's actions: each ending comes closer, and only routing the next message leads away.
   */
  lemma PermitComesBack(s: State, a: Action, s': State)
    requires Reachable(s) && Next(s, a, s')
    ensures a.Complete? && Routes(s.flights[a.i].t) ==> Distance(s') < Distance(s)
    ensures !(a.Start? && a.t.RouteMessage?) ==> Distance(s') <= Distance(s)
    ensures a.Start? && a.t.RouteMessage? ==> Distance(s) == 0
  {
    DistanceZeroIffReady(s);
    PlaceInvariants(s);
    match a
    case Start(t, j) => StartDistance(s, t, j, s');
    case Complete(i, leg) =>
      ReachableKeeps(s);
      CompleteDistance(s, i, leg, s');
    case Arrive(_) =>
    case Deliver(_, _, _) =>
  }

  lemma StartDistance(s: State, t: Transition, j: nat, s': State)
    requires Starts(s, t, j, s')
    ensures Distance(s') == Distance(s) + if t.RouteMessage? then 3 else 0
  {
    var f := s'.flights[|s.flights|];
    assert s'.flights == s.flights + [f];
    WeighAppend(Stage, s.flights, f);
  }

  lemma CompleteDistance(s: State, i: nat, leg: nat, s': State)
    requires RouterLaws(s) && Completes(s, i, leg, s')
    ensures Distance(s') <= Distance(s)
    ensures Routes(s.flights[i].t) ==> Distance(s') < Distance(s)
  {
    var l := Legs(s.flights[i].t, s.marking)[leg];
    PermitMoves(s.flights[i].t, s.marking, leg);
    LegEndings(s.flights[i].t, s.marking, leg);
    LandingDistance(s, i, l.marking, l.ending);
    assert s' == Landed(s, i, l.marking, l.ending);
  }

  lemma LegEndings(t: Transition, m: Marking, leg: nat)
    requires leg < |Legs(t, m)|
    ensures t.LogDeadLetter? ==> Legs(t, m)[leg].ending.Handled?
    ensures Legs(t, m)[leg].ending.Routed? ==> t.RouteMessage?
  {
  }

  lemma LandingDistance(s: State, i: nat, m: Marking, ending: Ending)
    requires RouterLaws(s) && i < |s.flights| && (ending.NoMessage? <==> !Routes(s.flights[i].t))
    requires s.flights[i].t.LogDeadLetter? ==> ending.Handled?
    requires ending.Routed? ==> s.flights[i].t.RouteMessage?
    ensures Distance(Landed(s, i, m, ending)) <= Distance(s)
    ensures Routes(s.flights[i].t) ==> Distance(Landed(s, i, m, ending)) < Distance(s)
  {
    assert WellHeld(s.flights[i]);
    WeighRemove(Stage, s.flights, i);
  }

  // ----- progress over runs ----------------------------------------------------------

  /** A stretch of a run that routes no further message. */
  ghost predicate IsStretch(ss: seq<State>, acts: seq<Action>) {
    |ss| == |acts| + 1 && forall i: nat :: i < |acts| ==> NextAt(ss, acts, i) && !RoutesNext(acts[i])
  }

  predicate RoutesNext(a: Action) {
    a.Start? && a.t.RouteMessage?
  }

  predicate EndsRouting(s: State, a: Action) {
    a.Complete? && a.i < |s.flights| && Routes(s.flights[a.i].t)
  }

  /** How many of the router's actions end along the stretch. */
  function Endings(ss: seq<State>, acts: seq<Action>): nat
    requires |ss| == |acts| + 1
  {
    if acts == [] then 0
    else
      var n := |acts| - 1;
      Endings(ss[..|ss| - 1], acts[..n]) + if EndsRouting(ss[n], acts[n]) then 1 else 0
  }

  lemma {:induction false} EndingsUseDistance(ss: seq<State>, acts: seq<Action>)
    requires IsStretch(ss, acts) && Reachable(ss[0])
    ensures Reachable(ss[|acts|])
    ensures Endings(ss, acts) + Distance(ss[|acts|]) <= Distance(ss[0])
  {
    if acts != [] {
      var n := |acts| - 1;
      var before, firsts := ss[..|ss| - 1], acts[..n];
      assert before[n] == ss[n] && before[0] == ss[0];
      forall i: nat | i < n
        ensures NextAt(before, firsts, i) && !RoutesNext(firsts[i])
      {
        assert NextAt(ss, acts, i);
      }
      EndingsUseDistance(before, firsts);
      assert NextAt(ss, acts, n);
      StepUsesDistance(ss[n], acts[n], ss[n + 1]);
    }
  }

  lemma StepUsesDistance(s: State, a: Action, s': State)
    requires Reachable(s) && Next(s, a, s') && !RoutesNext(a)
    ensures Reachable(s')
    ensures Distance(s') + (if EndsRouting(s, a) then 1 else 0) <= Distance(s)
  {
    StepReachable(s, a, s');
    PermitComesBack(s, a, s');
  }

  /**
   However the rest of the net interleaves, at most two of the router's actions end before the
   next message is routed, and the second ending has put the permit back.
   */
  lemma AtMostTwoEndings(ss: seq<State>, acts: seq<Action>)
    requires IsStretch(ss, acts) && Reachable(ss[0]) && ss[0].routed != []
    ensures Endings(ss, acts) <= 2
    ensures Endings(ss, acts) == 2 ==> ss[|acts|].marking.routerReady == 1
  {
    EndingsUseDistance(ss, acts);
    DistanceZeroIffReady(ss[0]);
    DistanceZeroIffReady(ss[|acts|]);
  }

  // ----- every message is dealt with -------------------------------------------------

  /** The start of one of the router's transitions, which wait for no click, or the end of any action. */
  predicate IsInternal(a: Action) {
    a.Complete? || (a.Start? && Routes(a.t))
  }

  /** The net goes on by itself: nothing arrives, nothing is delivered, and nobody clicks. */
  ghost predicate IsInternalRun(ss: seq<State>, acts: seq<Action>) {
    |ss| == |acts| + 1 && forall i: nat :: i < |acts| ==> NextAt(ss, acts, i) && IsInternal(acts[i])
  }

  ghost predicate IsQuiet(s: State) {
    forall a, s' :: IsInternal(a) ==> !Next(s, a, s')
  }

  /** The starts and endings a running action still makes possible, at most, its own ending included. */
  function Steps(t: Transition): nat {
    if t.RouteMessage? then 5 else if HandlesKind(t) then 3 else 1
  }

  /** How many steps the net can still take by itself, at most. */
  function Patience(s: State): nat {
    6 * |s.waiting| + 4 * |s.routed| + 2 * |s.letters| + Weigh(Steps, s.flights)
  }

  lemma StartLowers(s: State, t: Transition, j: nat, s': State)
    requires Starts(s, t, j, s') && Routes(t)
    ensures Patience(s') < Patience(s)
  {
    var f := s'.flights[|s.flights|];
    assert s'.flights == s.flights + [f];
    WeighAppend(Steps, s.flights, f);
  }

  lemma LandingLowers(s: State, i: nat, m: Marking, ending: Ending)
    requires RouterLaws(s) && i < |s.flights| && (ending.NoMessage? <==> !Routes(s.flights[i].t))
    requires s.flights[i].t.LogDeadLetter? ==> ending.Handled?
    requires ending.Routed? ==> s.flights[i].t.RouteMessage?
    ensures Patience(Landed(s, i, m, ending)) < Patience(s)
  {
    assert WellHeld(s.flights[i]);
    WeighRemove(Steps, s.flights, i);
  }

  lemma CompleteLowers(s: State, i: nat, leg: nat, s': State)
    requires RouterLaws(s) && Completes(s, i, leg, s')
    ensures Patience(s') < Patience(s)
  {
    var l := Legs(s.flights[i].t, s.marking)[leg];
    PermitMoves(s.flights[i].t, s.marking, leg);
    LegEndings(s.flights[i].t, s.marking, leg);
    LandingLowers(s, i, l.marking, l.ending);
    assert s' == Landed(s, i, l.marking, l.ending);
  }

  /** Whatever starts and whichever leg is written, each step of the net itself uses up patience. */
  lemma InternalStepLowers(s: State, a: Action, s': State)
    requires Reachable(s) && Next(s, a, s') && IsInternal(a)
    ensures Patience(s') < Patience(s) && s'.arrived == s.arrived
  {
    match a
    case Start(t, j) => StartLowers(s, t, j, s');
    case Complete(i, leg) =>
      ReachableKeeps(s);
      CompleteLowers(s, i, leg, s');
  }

  /** Any running action can end. */
  lemma CanEnd(s: State, i: nat) returns (leg: nat, s': State)
    requires Reachable(s) && i < |s.flights|
    ensures Completes(s, i, leg, s')
  {
    ReachableKeeps(s);
    assert WellHeld(s.flights[i]);
    leg := if s.flights[i].t.RouteMessage? && !s.flights[i].held[0].Known? then 1 else 0;
    var l := Legs(s.flights[i].t, s.marking)[leg];
    PermitMoves(s.flights[i].t, s.marking, leg);
    s' := Landed(s, i, l.marking, l.ending);
  }

  lemma RouteNext(s: State) returns (s': State)
    requires Reachable(s) && InTransit(s) == [] && s.waiting != []
    ensures Starts(s, RouteMessage, 0, s')
  {
    PlaceInvariants(s);
    ReachableKeeps(s);
    NotInFlight(Permit, s, RouteMessage);
    s' := s.(marking := Consume(RouteMessage, s.marking), waiting := s.waiting[1..],
             flights := s.flights + [Flight(RouteMessage, [s.waiting[0]])]);
  }

  lemma LogNext(s: State) returns (s': State)
    requires Reachable(s) && s.letters != []
    ensures Starts(s, LogDeadLetter, 0, s')
  {
    LettersAreLogged(s);
    s' := s.(marking := Consume(LogDeadLetter, s.marking), letters := s.letters[1..],
             flights := s.flights + [Flight(LogDeadLetter, [s.letters[0]])]);
  }

  lemma HandleNext(s: State) returns (a: Action, s': State)
    requires CanHandle(s)
    ensures IsInternal(a) && Next(s, a, s')
  {
    var t :| HandlesKind(t) && CanStart(t, s);
    var j :| 0 <= j < |s.routed| && Takes(t, s.routed[j]);
    a := Start(t, j);
    s' := s.(marking := Consume(t, s.marking), routed := RemoveAt(s.routed, j),
             flights := s.flights + [Flight(t, [s.routed[j]])]);
  }

  /** While a message is not dealt with, or an action is running, the net can go on by itself. */
  lemma SomeInternalStep(s: State) returns (a: Action, s': State)
    requires Reachable(s) && (s.done != s.arrived || s.flights != [])
    ensures IsInternal(a) && Next(s, a, s')
  {
    ArrivalOrder(s);
    if s.flights != [] {
      var leg;
      leg, s' := CanEnd(s, 0);
      a := Complete(0, leg);
    } else if s.routed != [] {
      NeverWedged(s);
      a, s' := HandleNext(s);
    } else if s.letters != [] {
      a := Start(LogDeadLetter, 0);
      s' := LogNext(s);
    } else {
      a := Start(RouteMessage, 0);
      s' := RouteNext(s);
    }
  }

  /** The net has come to rest exactly when every message is dealt with and no action is running. */
  lemma QuietIffAllDealtWith(s: State)
    requires Reachable(s)
    ensures IsQuiet(s) <==> s.done == s.arrived && s.flights == []
  {
    ArrivalOrder(s);
    if s.done != s.arrived || s.flights != [] {
      var a, s' := SomeInternalStep(s);
    } else {
      assert |s.arrived| == |s.done| + |InTransit(s)| + |s.waiting|;
      assert s.waiting == [] && s.routed == [] && s.letters == [];
    }
  }

  lemma AllButLastStep(ss: seq<State>, acts: seq<Action>)
    requires IsInternalRun(ss, acts) && acts != []
    ensures IsInternalRun(ss[..|ss| - 1], acts[..|acts| - 1])
  {
    var before, firsts := ss[..|ss| - 1], acts[..|acts| - 1];
    forall i: nat | i < |firsts|
      ensures NextAt(before, firsts, i) && IsInternal(firsts[i])
    {
      assert NextAt(ss, acts, i);
    }
  }

  /** However the net goes on by itself, it does so only for so long. */
  lemma {:induction false} InternalRunsEnd(ss: seq<State>, acts: seq<Action>)
    requires IsInternalRun(ss, acts) && Reachable(ss[0])
    ensures Reachable(ss[|acts|]) && ss[|acts|].arrived == ss[0].arrived
    ensures |acts| + Patience(ss[|acts|]) <= Patience(ss[0])
  {
    if acts != [] {
      var n := |acts| - 1;
      var before, firsts := ss[..|ss| - 1], acts[..n];
      AllButLastStep(ss, acts);
      InternalRunsEnd(before, firsts);
      assert NextAt(ss, acts, n);
      StepReachable(ss[n], acts[n], ss[n + 1]);
      InternalStepLowers(ss[n], acts[n], ss[n + 1]);
    }
  }

  /**
   From every reachable state, however the net goes on by itself and whichever legs its handlers
   write, it comes to rest after at most `Patience` steps, and at rest every message that has
   arrived is dealt with.
   */
  lemma EveryMessageIsDealtWith(ss: seq<State>, acts: seq<Action>)
    requires IsInternalRun(ss, acts) && Reachable(ss[0])
    ensures |acts| <= Patience(ss[0])
    ensures |acts| == Patience(ss[0]) ==> IsQuiet(ss[|acts|])
    ensures IsQuiet(ss[|acts|]) ==> ss[|acts|].done == ss[|acts|].arrived == ss[0].arrived
  {
    var last := ss[|acts|];
    InternalRunsEnd(ss, acts);
    QuietIffAllDealtWith(last);
    if |acts| == Patience(ss[0]) && (last.done != last.arrived || last.flights != []) {
      var a, s' := SomeInternalStep(last);
      InternalStepLowers(last, a, s');
    }
  }

  lemma StepThen(s: State, a: Action, ss: seq<State>, acts: seq<Action>)
    requires IsInternalRun(ss, acts) && IsInternal(a) && Next(s, a, ss[0])
    ensures IsInternalRun([s] + ss, [a] + acts)
  {
    var longer, more := [s] + ss, [a] + acts;
    forall i: nat | i < |more|
      ensures NextAt(longer, more, i) && IsInternal(more[i])
    {
      if i > 0 {
        assert longer[i] == ss[i - 1] && longer[i + 1] == ss[i] && more[i] == acts[i - 1];
        assert NextAt(ss, acts, i - 1);
      }
    }
  }

  /** In particular the net can come to rest by itself. */
  lemma {:induction false} NetComesToRest(s: State) returns (ss: seq<State>, acts: seq<Action>)
    requires Reachable(s)
    ensures IsInternalRun(ss, acts) && ss[0] == s
    ensures ss[|acts|].done == ss[|acts|].arrived == s.arrived && ss[|acts|].flights == []
    decreases Patience(s)
  {
    ss, acts := [s], [];
    if s.done != s.arrived || s.flights != [] {
      var a, s' := SomeInternalStep(s);
      StepReachable(s, a, s');
      InternalStepLowers(s, a, s');
      var ss', acts' := NetComesToRest(s');
      StepThen(s, a, ss', acts');
      ss, acts := [s] + ss', [a] + acts';
    }
  }
}
