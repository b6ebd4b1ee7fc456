/**
 The laws of the debug net, counting tokens and running actions together: what an action has
 taken counts as held by the action until one of its legs gives it back.
 */
module DebugLaws {
  import opened DebugNet

  /** What a running action holds one of. */
  datatype Resource = Permit | Phase | SessionKind | ModeToken | TheState | TheBreakpoints | Connection

  function Holds(r: Resource, t: Transition): nat {
    match r
    case Permit => if Routes(t) then 1 else 0
    case Phase => if t.Subscribe? || t.SwitchFrom? || t.AbandonSubscribe? || t.OnSubscribed? then 1 else 0
    case SessionKind => 0
    case ModeToken =>
      if t.ReplayPlay? || t.ReplayPlayFromBreakpoint? || t.ReplayAutoStep? || t.ReplayPause? then 1 else 0
    case TheState =>
      if t.OnEvent? || t.OnEventBatch? || t.OnReplayEventBatch? || t.OnMarkingSnapshot? || t.ReplayAutoStep? ||
         t.ReplayCommand? then 1 else 0
    case TheBreakpoints => if t.OnBreakpointList? || t.EditBreakpoints? then 1 else 0
    case Connection =>
      if t.Connect? || t.OnOpen? || t.OnCloseConnecting? || t.OnCloseConnected? || t.Reconnect? then 1 else 0
  }

  /** How many of the running actions hold `r`. */
  function Held(r: Resource, fs: seq<Flight>): nat {
    if fs == [] then 0 else Held(r, fs[..|fs| - 1]) + Holds(r, fs[|fs| - 1].t)
  }

  lemma HeldAppend(r: Resource, fs: seq<Flight>, f: Flight)
    ensures Held(r, fs + [f]) == Held(r, fs) + Holds(r, f.t)
  {
    assert (fs + [f])[..|fs|] == fs;
  }

  lemma {:induction false} HeldRemove(r: Resource, fs: seq<Flight>, i: nat)
    requires i < |fs|
    ensures Held(r, RemoveAt(fs, i)) + Holds(r, fs[i].t) == Held(r, fs)
  {
    var n := |fs| - 1;
    RemoveAtLast(fs, i);
    if i < n {
      HeldRemove(r, fs[..n], i);
      HeldAppend(r, RemoveAt(fs[..n], i), fs[n]);
    }
  }

  lemma {:induction false} HeldBySome(r: Resource, fs: seq<Flight>) returns (i: nat)
    requires Held(r, fs) > 0
    ensures i < |fs| && Holds(r, fs[i].t) == 1
  {
    i := |fs| - 1;
    if Holds(r, fs[i].t) == 0 {
      i := HeldBySome(r, fs[..i]);
    }
  }

  lemma HeldByNone(r: Resource, fs: seq<Flight>, i: nat)
    requires Held(r, fs) == 0 && i < |fs|
    ensures Holds(r, fs[i].t) == 0
  {
    HeldRemove(r, fs, i);
  }

  lemma {:induction false} SessionKindUnheld(fs: seq<Flight>)
    ensures Held(SessionKind, fs) == 0
  {
    if fs != [] {
      SessionKindUnheld(fs[..|fs| - 1]);
    }
  }

  // ----- token laws ------------------------------------------------------------------

  /** The tokens of `r` in the marking, less those they must match. */
  function Tokens(r: Resource, m: Marking): int {
    match r
    case Permit => m.routerReady
    case Phase => m.noSession + m.subscribing + m.subscribedSession
    case SessionKind => m.liveSession + m.replaySession - m.subscribedSession
    case ModeToken => m.replayPaused + m.replayPlaying + m.breakpointPaused - m.replaySession
    case TheState => m.uiState - m.subscribedSession
    case TheBreakpoints => m.breakpoints
    case Connection => m.idle + m.connecting + m.connected + m.waitReconnect
  }

  /** What the tokens and the running actions hold together. */
  function Supply(r: Resource): int {
    match r
    case Permit => 1
    case Phase => 1
    case SessionKind => 0
    case ModeToken => 0
    case TheState => 0
    case TheBreakpoints => 1
    case Connection => 1
  }

  lemma StartHoldsPhase(t: Transition, m: Marking)
    requires Enabled(t, m)
    ensures Tokens(Phase, Consume(t, m)) + Holds(Phase, t) == Tokens(Phase, m)
  {
  }

  lemma StartHoldsKind(t: Transition, m: Marking)
    requires Enabled(t, m)
    ensures Tokens(SessionKind, Consume(t, m)) == Tokens(SessionKind, m)
  {
  }

  lemma StartHoldsMode(t: Transition, m: Marking)
    requires Enabled(t, m)
    ensures Tokens(ModeToken, Consume(t, m)) + Holds(ModeToken, t) == Tokens(ModeToken, m)
  {
  }

  lemma StartHoldsState(t: Transition, m: Marking)
    requires Enabled(t, m)
    ensures Tokens(TheState, Consume(t, m)) + Holds(TheState, t) == Tokens(TheState, m)
  {
  }

  lemma StartHoldsBreakpoints(t: Transition, m: Marking)
    requires Enabled(t, m)
    ensures Tokens(TheBreakpoints, Consume(t, m)) + Holds(TheBreakpoints, t) == Tokens(TheBreakpoints, m)
  {
  }

  lemma StartHoldsConnection(t: Transition, m: Marking)
    requires Enabled(t, m)
    ensures Tokens(Connection, Consume(t, m)) + Holds(Connection, t) == Tokens(Connection, m)
  {
  }

  /** An action holds exactly what its inputs gave. */
  lemma StartHolds(r: Resource, t: Transition, m: Marking)
    requires !r.Permit? && Enabled(t, m)
    ensures Tokens(r, Consume(t, m)) + Holds(r, t) == Tokens(r, m)
  {
    match r
    case Phase => StartHoldsPhase(t, m);
    case SessionKind => StartHoldsKind(t, m);
    case ModeToken => StartHoldsMode(t, m);
    case TheState => StartHoldsState(t, m);
    case TheBreakpoints => StartHoldsBreakpoints(t, m);
    case Connection => StartHoldsConnection(t, m);
  }

  lemma LegReturnsPhase(t: Transition, m: Marking, leg: nat)
    requires leg < |Legs(t, m)|
    ensures Tokens(Phase, Legs(t, m)[leg].marking) == Tokens(Phase, m) + Holds(Phase, t)
    ensures Tokens(SessionKind, Legs(t, m)[leg].marking) == Tokens(SessionKind, m)
  {
  }

  lemma LegReturnsMode(t: Transition, m: Marking, leg: nat)
    requires leg < |Legs(t, m)|
    ensures Tokens(ModeToken, Legs(t, m)[leg].marking) == Tokens(ModeToken, m) + Holds(ModeToken, t)
  {
  }

  lemma LegReturnsState(t: Transition, m: Marking, leg: nat)
    requires leg < |Legs(t, m)|
    ensures Tokens(TheState, Legs(t, m)[leg].marking) == Tokens(TheState, m) + Holds(TheState, t)
  {
  }

  lemma LegReturnsBreakpoints(t: Transition, m: Marking, leg: nat)
    requires leg < |Legs(t, m)|
    ensures Tokens(TheBreakpoints, Legs(t, m)[leg].marking) == Tokens(TheBreakpoints, m) + Holds(TheBreakpoints, t)
  {
  }

  lemma LegReturnsConnection(t: Transition, m: Marking, leg: nat)
    requires leg < |Legs(t, m)|
    ensures Tokens(Connection, Legs(t, m)[leg].marking) == Tokens(Connection, m) + Holds(Connection, t)
  {
  }

  /** Every leg gives back exactly what the action holds. */
  lemma LegReturns(r: Resource, t: Transition, m: Marking, leg: nat)
    requires !r.Permit? && leg < |Legs(t, m)|
    ensures Tokens(r, Legs(t, m)[leg].marking) == Tokens(r, m) + Holds(r, t)
  {
    match r
    case Phase => LegReturnsPhase(t, m, leg);
    case SessionKind => LegReturnsPhase(t, m, leg);
    case ModeToken => LegReturnsMode(t, m, leg);
    case TheState => LegReturnsState(t, m, leg);
    case TheBreakpoints => LegReturnsBreakpoints(t, m, leg);
    case Connection => LegReturnsConnection(t, m, leg);
  }

  /** Only the router's classifier takes the permit. */
  lemma PermitTaken(t: Transition, m: Marking)
    requires Enabled(t, m)
    ensures Consume(t, m).routerReady == m.routerReady - if t.RouteMessage? then 1 else 0
  {
  }

  /** Exactly the legs that end the handling of a message give the permit back. */
  lemma PermitMoves(t: Transition, m: Marking, leg: nat)
    requires leg < |Legs(t, m)|
    ensures Legs(t, m)[leg].marking.routerReady == m.routerReady + if Legs(t, m)[leg].ending.Handled? then 1 else 0
    ensures Legs(t, m)[leg].ending.NoMessage? <==> !Routes(t)
    ensures Legs(t, m)[leg].ending.Routed? ==> t.RouteMessage?
  {
  }

  // ----- messages in transit ---------------------------------------------------------

  /** The messages held by running actions. */
  function InHand(fs: seq<Flight>): seq<Message> {
    if fs == [] then [] else InHand(fs[..|fs| - 1]) + fs[|fs| - 1].held
  }

  /** Exactly the router's actions hold a message, a handler's one of its type. */
  ghost predicate WellHeld(f: Flight) {
    && (Routes(f.t) ==> |f.held| == 1) && (!Routes(f.t) ==> f.held == [])
    && (HandlesKind(f.t) ==> Takes(f.t, f.held[0]))
  }

  ghost predicate AllWellHeld(fs: seq<Flight>) {
    forall i :: 0 <= i < |fs| ==> WellHeld(fs[i])
  }

  lemma {:induction false} InHandCount(fs: seq<Flight>)
    requires AllWellHeld(fs)
    ensures |InHand(fs)| == Held(Permit, fs)
  {
    if fs != [] {
      InHandCount(fs[..|fs| - 1]);
    }
  }

  lemma InHandAppend(fs: seq<Flight>, f: Flight)
    ensures InHand(fs + [f]) == InHand(fs) + f.held
  {
    assert (fs + [f])[..|fs|] == fs;
  }

  /** The one message in hand is the one its action holds. */
  lemma {:induction false} InHandRemove(fs: seq<Flight>, i: nat)
    requires i < |fs| && AllWellHeld(fs) && |InHand(fs)| <= 1
    ensures AllWellHeld(RemoveAt(fs, i))
    ensures fs[i].held == [] ==> InHand(RemoveAt(fs, i)) == InHand(fs)
    ensures fs[i].held != [] ==> InHand(RemoveAt(fs, i)) == [] && InHand(fs) == fs[i].held
  {
    var n := |fs| - 1;
    RemoveAtLast(fs, i);
    if i < n {
      InHandRemove(fs[..n], i);
      InHandAppend(RemoveAt(fs[..n], i), fs[n]);
    }
  }

  /** The messages between `wsMessage` and the end of their handling. */
  function InTransit(s: State): seq<Message> {
    s.routed + s.letters + InHand(s.flights)
  }

  // ----- the invariant ---------------------------------------------------------------

  ghost predicate TokenLaw(r: Resource, s: State) {
    Tokens(r, s.marking) + Held(r, s.flights) == Supply(r)
  }

  /** One permit: on its place, or standing for the one message in transit. */
  ghost predicate PermitLaw(s: State) {
    s.marking.routerReady + |InTransit(s)| == 1
  }

  /** No message is lost, duplicated or overtaken. */
  ghost predicate FlowLaw(s: State) {
    s.arrived == s.done + InTransit(s) + s.waiting
  }

  ghost predicate RouterLaws(s: State) {
    && AllWellHeld(s.flights)
    && (forall i :: 0 <= i < |s.routed| ==> s.routed[i].Known?)
    && PermitLaw(s)
    && FlowLaw(s)
  }

  ghost predicate Inv(s: State) {
    (forall r: Resource {:trigger TokenLaw(r, s)} :: !r.Permit? ==> TokenLaw(r, s)) && RouterLaws(s)
  }

  lemma StartKeepsTokens(r: Resource, s: State, t: Transition, j: nat, s': State)
    requires !r.Permit? && TokenLaw(r, s) && Starts(s, t, j, s')
    ensures TokenLaw(r, s')
  {
    StartHolds(r, t, s.marking);
    HeldAppend(r, s.flights, s'.flights[|s.flights|]);
    assert s'.flights == s.flights + [s'.flights[|s.flights|]];
  }

  lemma CompleteKeepsTokens(r: Resource, s: State, i: nat, leg: nat, s': State)
    requires !r.Permit? && TokenLaw(r, s) && Completes(s, i, leg, s')
    ensures TokenLaw(r, s')
  {
    LegReturns(r, s.flights[i].t, s.marking, leg);
    HeldRemove(r, s.flights, i);
  }

  lemma RouteKeepsFlow(s: State, m: Marking)
    requires RouterLaws(s) && s.waiting != [] && m.routerReady == s.marking.routerReady - 1
    ensures var msg := s.waiting[0];
      RouterLaws(s.(marking := m, waiting := s.waiting[1..], flights := s.flights + [Flight(RouteMessage, [msg])]))
  {
    InHandAppend(s.flights, Flight(RouteMessage, [s.waiting[0]]));
    assert InTransit(s) == [];
    assert s.waiting == [s.waiting[0]] + s.waiting[1..];
  }

  lemma LogKeepsFlow(s: State, m: Marking)
    requires RouterLaws(s) && s.letters != [] && m.routerReady == s.marking.routerReady
    ensures var msg := s.letters[0];
      RouterLaws(s.(marking := m, letters := s.letters[1..], flights := s.flights + [Flight(LogDeadLetter, [msg])]))
  {
    InHandAppend(s.flights, Flight(LogDeadLetter, [s.letters[0]]));
    assert |InTransit(s)| == |s.routed| + |s.letters| + |InHand(s.flights)|;
    assert s.letters == [s.letters[0]] && s.routed == [] && InHand(s.flights) == [];
    assert InTransit(s) == [s.letters[0]];
  }

  lemma HandleKeepsFlow(s: State, t: Transition, m: Marking, j: nat)
    requires RouterLaws(s) && HandlesKind(t) && m.routerReady == s.marking.routerReady
    requires j < |s.routed| && Takes(t, s.routed[j])
    ensures var msg := s.routed[j];
      RouterLaws(s.(marking := m, routed := RemoveAt(s.routed, j), flights := s.flights + [Flight(t, [msg])]))
  {
    InHandAppend(s.flights, Flight(t, [s.routed[j]]));
    assert |s.routed| == 1 && s.letters == [] && InHand(s.flights) == [];
  }

  lemma OtherKeepsFlow(s: State, t: Transition, m: Marking)
    requires RouterLaws(s) && !Routes(t) && m.routerReady == s.marking.routerReady
    ensures RouterLaws(s.(marking := m, flights := s.flights + [Flight(t, [])]))
  {
    InHandAppend(s.flights, Flight(t, []));
  }

  lemma StartKeepsFlow(s: State, t: Transition, j: nat, s': State)
    requires RouterLaws(s) && Starts(s, t, j, s')
    ensures RouterLaws(s')
  {
    var m := Consume(t, s.marking);
    PermitTaken(t, s.marking);
    if t.RouteMessage? {
      RouteKeepsFlow(s, m);
    } else if t.LogDeadLetter? {
      LogKeepsFlow(s, m);
    } else if HandlesKind(t) {
      HandleKeepsFlow(s, t, m, j);
    } else {
      OtherKeepsFlow(s, t, m);
    }
  }

  /** When an action that holds a message ends, that message was the only one in transit. */
  lemma EndOfTransit(s: State, i: nat)
    requires RouterLaws(s) && i < |s.flights|
    ensures AllWellHeld(RemoveAt(s.flights, i))
    ensures Routes(s.flights[i].t) ==>
      s.routed == [] && s.letters == [] && s.marking.routerReady == 0 &&
      InTransit(s) == s.flights[i].held && |s.flights[i].held| == 1 && InHand(RemoveAt(s.flights, i)) == []
    ensures !Routes(s.flights[i].t) ==> s.flights[i].held == [] && InHand(RemoveAt(s.flights, i)) == InHand(s.flights)
  {
    InHandRemove(s.flights, i);
  }

  /** The state after flight `i` has ended with `ending`, leaving the marking `m`. */
  ghost function Landed(s: State, i: nat, m: Marking, ending: Ending): State
    requires i < |s.flights|
  {
    var held := s.flights[i].held;
    var after := s.(marking := m, flights := RemoveAt(s.flights, i));
    match ending
    case NoMessage => after
    case Handled => after.(done := s.done + held)
    case Lettered => after.(letters := s.letters + held)
    case Routed => after.(routed := s.routed + held)
  }

  lemma LandingKeepsFlow(s: State, i: nat, m: Marking, ending: Ending)
    requires RouterLaws(s) && i < |s.flights| && (ending.NoMessage? <==> !Routes(s.flights[i].t))
    requires m.routerReady == s.marking.routerReady + if ending.Handled? then 1 else 0
    requires ending.Routed? ==> s.flights[i].held[0].Known?
    ensures RouterLaws(Landed(s, i, m, ending))
  {
    var s' := Landed(s, i, m, ending);
    EndOfTransit(s, i);
    if ending.Handled? {
      assert InTransit(s') == [] && s'.done == s.done + InTransit(s);
    } else {
      assert InTransit(s') == InTransit(s);
    }
  }

  lemma CompleteKeepsFlow(s: State, i: nat, leg: nat, s': State)
    requires RouterLaws(s) && Completes(s, i, leg, s')
    ensures RouterLaws(s')
  {
    var l := Legs(s.flights[i].t, s.marking)[leg];
    PermitMoves(s.flights[i].t, s.marking, leg);
    LandingKeepsFlow(s, i, l.marking, l.ending);
    assert s' == Landed(s, i, l.marking, l.ending);
  }

  /** Every step keeps every law. */
  lemma NextKeeps(s: State, a: Action, s': State)
    requires Inv(s) && Next(s, a, s')
    ensures Inv(s')
  {
    match a
    case Start(t, j) =>
      forall r: Resource | !r.Permit?
        ensures TokenLaw(r, s')
      {
        StartKeepsTokens(r, s, t, j, s');
      }
      StartKeepsFlow(s, t, j, s');
    case Complete(i, leg) =>
      forall r: Resource | !r.Permit?
        ensures TokenLaw(r, s')
      {
        CompleteKeepsTokens(r, s, i, leg, s');
      }
      CompleteKeepsFlow(s, i, leg, s');
    case Arrive(msg) =>
      assert forall r: Resource :: TokenLaw(r, s) ==> TokenLaw(r, s');
      assert InTransit(s') == InTransit(s);
    case Deliver(_, _, _) =>
      assert forall r: Resource :: TokenLaw(r, s) ==> TokenLaw(r, s');
      assert InTransit(s') == InTransit(s);
  }

  lemma {:induction false} RunKeeps(ss: seq<State>, acts: seq<Action>, i: nat)
    requires IsRun(ss, acts) && i < |ss|
    ensures Inv(ss[i])
  {
    if i > 0 {
      RunKeeps(ss, acts, i - 1);
      assert NextAt(ss, acts, i - 1);
      NextKeeps(ss[i - 1], acts[i - 1], ss[i]);
    }
  }

  lemma ReachableKeeps(s: State)
    requires Reachable(s)
    ensures Inv(s)
  {
    var ss, acts :| IsRun(ss, acts) && ss[|acts|] == s;
    RunKeeps(ss, acts, |acts|);
  }
}
