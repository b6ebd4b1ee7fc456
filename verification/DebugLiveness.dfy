/**
 Nothing in the debug net is dead: from every reachable state, whatever has gone before, the net
 can be brought into every phase and mode, and every leg of every transition can be written.
 */
module DebugLiveness {
  import opened DebugNet
  import opened DebugLaws
  import opened DebugTheorems

  /** Some run leads from `s` to `s'`. */
  ghost predicate LeadsTo(s: State, s': State) {
    exists ss, acts :: IsPath(ss, acts) && ss[0] == s && ss[|acts|] == s'
  }

  ghost predicate IsPath(ss: seq<State>, acts: seq<Action>) {
    |ss| == |acts| + 1 && forall i: nat :: i < |acts| ==> NextAt(ss, acts, i)
  }

  lemma LeadsNowhere(s: State)
    ensures LeadsTo(s, s)
  {
    assert IsPath([s], []);
  }

  lemma LeadsOn(s: State, t: State, a: Action, u: State)
    requires Reachable(s) && LeadsTo(s, t) && Next(t, a, u) && Reachable(t)
    ensures LeadsTo(s, u) && Reachable(u)
  {
    StepReachable(t, a, u);
    var ss, acts :| IsPath(ss, acts) && ss[0] == s && ss[|acts|] == t;
    var longer, more := ss + [u], acts + [a];
    forall i: nat | i < |more|
      ensures NextAt(longer, more, i)
    {
      if i < |acts| {
        assert longer[i] == ss[i] && longer[i + 1] == ss[i + 1] && more[i] == acts[i];
        assert NextAt(ss, acts, i);
      }
    }
    assert IsPath(longer, more);
  }

  lemma {:induction false} InternalLeads(ss: seq<State>, acts: seq<Action>, i: nat)
    requires IsInternalRun(ss, acts) && Reachable(ss[0]) && i <= |acts|
    ensures LeadsTo(ss[0], ss[i]) && Reachable(ss[i])
  {
    if i == 0 {
      LeadsNowhere(ss[0]);
    } else {
      InternalLeads(ss, acts, i - 1);
      assert NextAt(ss, acts, i - 1);
      LeadsOn(ss[0], ss[i - 1], acts[i - 1], ss[i]);
    }
  }

  // ----- calm states -----------------------------------------------------------------

  /** No action is running and no message is under way. */
  ghost predicate Calm(s: State) {
    Reachable(s) && s.flights == [] && s.waiting == [] && s.routed == [] && s.letters == []
  }

  /** Every state can be brought to calm. */
  lemma CalmDown(s: State) returns (calm: State)
    requires Reachable(s)
    ensures LeadsTo(s, calm) && Calm(calm)
  {
    var ss, acts := NetComesToRest(s);
    InternalLeads(ss, acts, |acts|);
    calm := ss[|acts|];
    ArrivalOrder(calm);
    assert |calm.arrived| == |calm.done| + |InTransit(calm)| + |calm.waiting|;
  }

  /** In a calm state every token is on its place. */
  lemma CalmPlaces(s: State)
    requires Calm(s)
    ensures var m := s.marking;
      && m.noSession + m.subscribing + m.subscribedSession == 1
      && m.subscribedSession == m.liveSession + m.replaySession && m.subscribedSession == m.uiState
      && m.replaySession == m.replayPaused + m.replayPlaying + m.breakpointPaused
      && m.breakpoints == 1 && m.routerReady == 1
      && m.idle + m.connecting + m.connected + m.waitReconnect == 1
  {
    PlaceInvariants(s);
  }

  /** A transition that takes no message runs to the end of one of its legs. */
  lemma Run(s0: State, s: State, t: Transition, leg: nat) returns (s': State)
    requires Reachable(s0) && LeadsTo(s0, s) && Calm(s) && InNet(t) && !Routes(t)
    requires Enabled(t, s.marking) && leg < |Legs(t, Consume(t, s.marking))|
    ensures LeadsTo(s0, s') && Calm(s')
    ensures s'.marking == Legs(t, Consume(t, s.marking))[leg].marking
  {
    var started := s.(marking := Consume(t, s.marking), flights := [Flight(t, [])]);
    assert s.flights + [Flight(t, [])] == [Flight(t, [])];
    assert Next(s, Start(t, 0), started);
    LeadsOn(s0, s, Start(t, 0), started);
    PermitMoves(t, started.marking, leg);
    s' := started.(marking := Legs(t, started.marking)[leg].marking, flights := []);
    assert RemoveAt(started.flights, 0) == [];
    assert Next(started, Complete(0, leg), s');
    LeadsOn(s0, started, Complete(0, leg), s');
  }

  /** The environment delivers a selection, a tick or a link. */
  lemma Supply(s0: State, s: State, selections: nat, ticks: nat, links: nat) returns (s': State)
    requires Reachable(s0) && LeadsTo(s0, s) && Calm(s)
    ensures LeadsTo(s0, s') && Calm(s')
    ensures s'.marking == s.marking.(userSelectSession := s.marking.userSelectSession + selections,
                                     autoStepTick := s.marking.autoStepTick + ticks, deepLink := s.marking.deepLink + links)
  {
    s' := s.(marking := s.marking.(userSelectSession := s.marking.userSelectSession + selections,
                                   autoStepTick := s.marking.autoStepTick + ticks, deepLink := s.marking.deepLink + links));
    LeadsOn(s0, s, Deliver(selections, ticks, links), s');
  }

  /** A message arrives and the router takes it. */
  lemma Take(s0: State, s: State, msg: Message) returns (s': State)
    requires Reachable(s0) && LeadsTo(s0, s) && Calm(s)
    ensures LeadsTo(s0, s') && Reachable(s')
    ensures s' == s.(marking := s.marking.(routerReady := 0), flights := [Flight(RouteMessage, [msg])], arrived := s.arrived + [msg])
  {
    CalmPlaces(s);
    var arrived := s.(waiting := [msg], arrived := s.arrived + [msg]);
    LeadsOn(s0, s, Arrive(msg), arrived);
    s' := arrived.(marking := Consume(RouteMessage, s.marking), waiting := [], flights := [Flight(RouteMessage, [msg])]);
    assert arrived.waiting[1..] == [] && arrived.flights + [Flight(RouteMessage, [msg])] == [Flight(RouteMessage, [msg])];
    assert Next(arrived, Start(RouteMessage, 0), s');
    LeadsOn(s0, arrived, Start(RouteMessage, 0), s');
  }

  /** And puts it on the place of its type, or of dead letters. */
  lemma Dispatch(s0: State, s: State, msg: Message) returns (s': State)
    requires Reachable(s0) && LeadsTo(s0, s) && Calm(s)
    ensures LeadsTo(s0, s') && Reachable(s')
    ensures s' == s.(marking := s.marking.(routerReady := 0), routed := if msg.Known? then [msg] else [],
                     letters := if msg.Known? then [] else [msg], arrived := s.arrived + [msg])
  {
    var taken := Take(s0, s, msg);
    var leg := if msg.Known? then 0 else 1;
    s' := s.(marking := s.marking.(routerReady := 0), routed := if msg.Known? then [msg] else [],
             letters := if msg.Known? then [] else [msg], arrived := s.arrived + [msg]);
    assert RemoveAt(taken.flights, 0) == [] && taken.routed + [msg] == [msg] && taken.letters + [msg] == [msg];
    assert Next(taken, Complete(0, leg), s');
    LeadsOn(s0, taken, Complete(0, leg), s');
  }

  /** A handler takes the message of its type. */
  lemma Handle(s0: State, s: State, t: Transition) returns (s': State)
    requires Reachable(s0) && LeadsTo(s0, s) && Calm(s) && InNet(t) && HandlesKind(t)
    requires Enabled(t, s.marking.(routerReady := 0))
    ensures LeadsTo(s0, s') && Reachable(s')
    ensures exists msg :: s' == s.(marking := Consume(t, s.marking.(routerReady := 0)), flights := [Flight(t, [msg])],
                                   arrived := s.arrived + [msg])
  {
    var msg := Known(KindOf(t), 0);
    var routed := Dispatch(s0, s, msg);
    s' := routed.(marking := Consume(t, routed.marking), routed := [], flights := [Flight(t, [msg])]);
    assert RemoveAt(routed.routed, 0) == [] && routed.flights + [Flight(t, [msg])] == [Flight(t, [msg])];
    assert routed.routed[0] == msg && Takes(t, routed.routed[0]);
    assert Next(routed, Start(t, 0), s');
    LeadsOn(s0, routed, Start(t, 0), s');
  }

  /** A handler's leg that gives the permit back leaves the net calm. */
  lemma RunHandler(s0: State, s: State, t: Transition, leg: nat) returns (s': State)
    requires Reachable(s0) && LeadsTo(s0, s) && Calm(s) && InNet(t) && HandlesKind(t)
    requires Enabled(t, s.marking.(routerReady := 0))
    requires var legs := Legs(t, Consume(t, s.marking.(routerReady := 0))); leg < |legs| && legs[leg].ending.Handled?
    ensures LeadsTo(s0, s') && Calm(s')
    ensures s'.marking == Legs(t, Consume(t, s.marking.(routerReady := 0)))[leg].marking
  {
    var handling := Handle(s0, s, t);
    var f := handling.flights[0];
    s' := handling.(marking := Legs(t, handling.marking)[leg].marking, flights := [], done := handling.done + f.held);
    assert RemoveAt(handling.flights, 0) == [];
    assert Next(handling, Complete(0, leg), s');
    LeadsOn(s0, handling, Complete(0, leg), s');
  }

  // ----- the connection --------------------------------------------------------------

  /** `m` with its connection in another state. */
  function Connection(m: Marking, idle: nat, connecting: nat, connected: nat, waitReconnect: nat): Marking {
    m.(idle := idle, connecting := connecting, connected := connected, waitReconnect := waitReconnect)
  }

  lemma FromIdle(s0: State, s: State) returns (s': State)
    requires Reachable(s0) && LeadsTo(s0, s) && Calm(s) && s.marking.connected == 0
    ensures LeadsTo(s0, s') && Calm(s') && s'.marking == Connection(s.marking, 0, 1, 0, 0)
  {
    CalmPlaces(s);
    s' := s;
    if s'.marking.waitReconnect == 1 {
      s' := Run(s0, s', Reconnect, 0);
    }
    if s'.marking.idle == 1 {
      s' := Run(s0, s', Connect, 0);
    }
  }

  lemma Open(s0: State, s: State) returns (s': State)
    requires Reachable(s0) && LeadsTo(s0, s) && Calm(s)
    ensures LeadsTo(s0, s') && Calm(s') && s'.marking == Connection(s.marking, 0, 0, 1, 0)
  {
    CalmPlaces(s);
    s' := s;
    if s.marking.connected == 0 {
      s' := FromIdle(s0, s);
      s' := Run(s0, s', OnOpen, 0);
    }
  }

  lemma Close(s0: State, s: State) returns (s': State)
    requires Reachable(s0) && LeadsTo(s0, s) && Calm(s)
    ensures LeadsTo(s0, s') && Calm(s') && s'.marking == Connection(s.marking, 0, 0, 0, 1)
  {
    s' := Open(s0, s);
    s' := Run(s0, s', OnCloseConnected, 0);
  }

  // ----- phases and modes ------------------------------------------------------------

  datatype Aim = NotSubscribed | AwaitingAnswer | InMode(mode: Mode)

  predicate At(aim: Aim, m: Marking) {
    match aim
    case NotSubscribed => m.noSession == 1
    case AwaitingAnswer => m.subscribing == 1
    case InMode(mode) => m.subscribedSession == 1 && m.uiState == 1 && HasMode(mode, m)
  }

  /** A subscribed session is in one of its modes. */
  function ModeOf(m: Marking): Mode {
    if m.liveSession >= 1 then Live else if m.replayPaused >= 1 then Paused
    else if m.replayPlaying >= 1 then Playing else AtBreakpoint
  }

  lemma CalmIsInMode(s: State)
    requires Calm(s) && s.marking.subscribedSession == 1
    ensures At(InMode(ModeOf(s.marking)), s.marking)
  {
    CalmPlaces(s);
  }

  /** A selection leads to `subscribing`, or on the other leg back to `noSession`. */
  lemma Select(s0: State, s: State, leg: nat) returns (s': State)
    requires Reachable(s0) && LeadsTo(s0, s) && Calm(s) && s.marking.subscribing == 0 && leg < 2
    ensures LeadsTo(s0, s') && Calm(s') && At(if leg == 0 then AwaitingAnswer else NotSubscribed, s'.marking)
    ensures s'.marking.connected == 1
  {
    CalmPlaces(s);
    s' := Open(s0, s);
    s' := Supply(s0, s', 1, 0, 0);
    if s.marking.noSession == 1 {
      s' := Run(s0, s', Subscribe, leg);
    } else {
      CalmIsInMode(s');
      s' := Run(s0, s', SwitchFrom(ModeOf(s'.marking)), leg);
    }
    CalmPlaces(s');
  }

  lemma ToAnswer(s0: State, s: State) returns (s': State)
    requires Reachable(s0) && LeadsTo(s0, s) && Calm(s)
    ensures LeadsTo(s0, s') && Calm(s') && At(AwaitingAnswer, s'.marking)
  {
    CalmPlaces(s);
    s' := s;
    if s.marking.subscribing == 0 {
      s' := Select(s0, s, 0);
    }
  }

  /** The answer makes the session live, or a paused replay. */
  lemma Answer(s0: State, s: State, mode: Mode) returns (s': State)
    requires Reachable(s0) && LeadsTo(s0, s) && Calm(s) && (mode == Live || mode == Paused)
    ensures LeadsTo(s0, s') && Calm(s') && At(InMode(mode), s'.marking)
  {
    s' := ToAnswer(s0, s);
    CalmPlaces(s');
    s' := RunHandler(s0, s', OnSubscribed, if mode == Live then 0 else 1);
    CalmPlaces(s');
  }

  lemma Play(s0: State, s: State) returns (s': State)
    requires Reachable(s0) && LeadsTo(s0, s) && Calm(s)
    ensures LeadsTo(s0, s') && Calm(s') && At(InMode(Playing), s'.marking) && s'.marking.autoStepTick >= 1
  {
    s' := Answer(s0, s, Paused);
    CalmPlaces(s');
    s' := Run(s0, s', ReplayPlay, 0);
    CalmPlaces(s');
  }

  lemma ToAim(s0: State, s: State, aim: Aim) returns (s': State)
    requires Reachable(s0) && LeadsTo(s0, s) && Calm(s)
    ensures LeadsTo(s0, s') && Calm(s') && At(aim, s'.marking)
  {
    match aim
    case NotSubscribed =>
      s' := Answer(s0, s, Live);
      CalmPlaces(s');
      s' := Select(s0, s', 1);
    case AwaitingAnswer => s' := ToAnswer(s0, s);
    case InMode(mode) =>
      if mode == Live || mode == Paused {
        s' := Answer(s0, s, mode);
      } else {
        s' := Play(s0, s);
        CalmPlaces(s');
        if mode == AtBreakpoint {
          s' := Run(s0, s', ReplayAutoStep, 2);
          CalmPlaces(s');
        }
      }
  }

  /** From every reachable state the net can be brought into every phase and mode. */
  lemma EveryModeIsLive(s: State, aim: Aim) returns (s': State)
    requires Reachable(s)
    ensures LeadsTo(s, s') && Calm(s') && At(aim, s'.marking)
  {
    var calm := CalmDown(s);
    s' := ToAim(s, calm, aim);
  }

  // ----- every leg -------------------------------------------------------------------

  /** Some run from `s` ends with `t` writing this leg. */
  ghost predicate CanWrite(s: State, t: Transition, leg: nat) {
    exists before, i: nat, after ::
      LeadsTo(s, before) && Completes(before, i, leg, after) && before.flights[i].t == t
  }

  /** Uses up the deep links the environment has delivered. */
  lemma {:induction false} DrainLinks(s0: State, s: State) returns (s': State)
    requires Reachable(s0) && LeadsTo(s0, s) && Calm(s)
    ensures LeadsTo(s0, s') && Calm(s') && s'.marking.deepLink == 0
    decreases s.marking.deepLink
  {
    s' := s;
    if s.marking.deepLink > 0 {
      s' := RunHandler(s0, s, OnSessionListDeepLink, 1);
      s' := DrainLinks(s0, s');
    }
  }

  lemma ToIdle(s0: State, s: State) returns (s': State)
    requires Reachable(s0) && LeadsTo(s0, s) && Calm(s)
    ensures LeadsTo(s0, s') && Calm(s') && s'.marking == Connection(s.marking, 1, 0, 0, 0)
  {
    s' := Close(s0, s);
    s' := Run(s0, s', Reconnect, 0);
  }

  lemma ToConnection(s0: State, s: State, t: Transition) returns (s': State)
    requires Reachable(s0) && LeadsTo(s0, s) && Calm(s)
    requires t.Connect? || t.OnOpen? || t.OnCloseConnecting? || t.OnCloseConnected? || t.Reconnect?
    ensures LeadsTo(s0, s') && Calm(s') && Enabled(t, s'.marking)
  {
    if t.OnCloseConnected? {
      s' := Open(s0, s);
    } else if t.Reconnect? {
      s' := Close(s0, s);
    } else {
      s' := ToIdle(s0, s);
      if !t.Connect? {
        s' := Run(s0, s', Connect, 0);
      }
    }
  }

  lemma ToSession(s0: State, s: State, t: Transition) returns (s': State)
    requires Reachable(s0) && LeadsTo(s0, s) && Calm(s) && (t.Subscribe? || t.SwitchFrom? || t.AbandonSubscribe?)
    ensures LeadsTo(s0, s') && Calm(s') && Enabled(t, s'.marking)
  {
    match t
    case Subscribe =>
      s' := ToAim(s0, s, NotSubscribed);
      s' := Open(s0, s');
      s' := Supply(s0, s', 1, 0, 0);
    case SwitchFrom(mode) =>
      s' := ToAim(s0, s, InMode(mode));
      s' := Open(s0, s');
      s' := Supply(s0, s', 1, 0, 0);
    case AbandonSubscribe =>
      s' := ToAim(s0, s, AwaitingAnswer);
      s' := Close(s0, s');
  }

  /** Where a transition of the replay starts from. */
  function ModeFor(t: Transition): Mode {
    if t.ReplayPlayFromBreakpoint? then AtBreakpoint else if t.ReplayAutoStep? || t.ReplayPause? then Playing else Paused
  }

  lemma ToReplay(s0: State, s: State, t: Transition) returns (s': State)
    requires Reachable(s0) && LeadsTo(s0, s) && Calm(s)
    requires t.ReplayPlay? || t.ReplayPlayFromBreakpoint? || t.ReplayAutoStep? || t.ReplayPause? || t.DropStaleTick? ||
             t.ReplayCommand? || t.EditBreakpoints?
    ensures LeadsTo(s0, s') && Calm(s') && Enabled(t, s'.marking)
  {
    s' := ToAim(s0, s, InMode(ModeFor(t)));
    s' := Supply(s0, s', 0, 1, 0);
    CalmPlaces(s');
  }

  lemma ToStateHandler(s0: State, s: State, t: Transition) returns (s': State)
    requires Reachable(s0) && LeadsTo(s0, s) && Calm(s)
    requires t.OnEvent? || t.OnEventBatch? || t.OnMarkingSnapshot? || t.OnReplayEventBatch?
    ensures LeadsTo(s0, s') && Calm(s') && Enabled(t, s'.marking.(routerReady := 0))
  {
    s' := ToAim(s0, s, InMode(if t.OnReplayEventBatch? then Paused else Live));
    CalmPlaces(s');
  }

  lemma ToListHandler(s0: State, s: State, t: Transition) returns (s': State)
    requires Reachable(s0) && LeadsTo(s0, s) && Calm(s) && (t.OnSessionList? || t.OnSessionListDeepLink?)
    ensures LeadsTo(s0, s') && Calm(s') && Enabled(t, s'.marking.(routerReady := 0))
  {
    if t.OnSessionList? {
      s' := DrainLinks(s0, s);
    } else {
      s' := Supply(s0, s, 0, 0, 1);
    }
  }

  lemma ToPhaseHandler(s0: State, s: State, t: Transition) returns (s': State)
    requires Reachable(s0) && LeadsTo(s0, s) && Calm(s) && (t.OnSubscribed? || t.DropSubscribed? || t.DropWithoutSession?)
    ensures LeadsTo(s0, s') && Calm(s') && Enabled(t, s'.marking.(routerReady := 0))
  {
    s' := ToAim(s0, s, if t.OnSubscribed? then AwaitingAnswer else NotSubscribed);
    CalmPlaces(s');
  }

  lemma ToHandler(s0: State, s: State, t: Transition) returns (s': State)
    requires Reachable(s0) && LeadsTo(s0, s) && Calm(s) && HandlesKind(t)
    ensures LeadsTo(s0, s') && Calm(s') && Enabled(t, s'.marking.(routerReady := 0))
  {
    if t.OnEvent? || t.OnEventBatch? || t.OnMarkingSnapshot? || t.OnReplayEventBatch? {
      s' := ToStateHandler(s0, s, t);
    } else if t.OnSessionList? || t.OnSessionListDeepLink? {
      s' := ToListHandler(s0, s, t);
    } else if t.OnSubscribed? || t.DropSubscribed? || t.DropWithoutSession? {
      s' := ToPhaseHandler(s0, s, t);
    } else {
      s' := s;
      CalmPlaces(s);
    }
  }

  lemma ToStart(s0: State, s: State, t: Transition) returns (s': State)
    requires Reachable(s0) && LeadsTo(s0, s) && Calm(s) && !Routes(t)
    ensures LeadsTo(s0, s') && Calm(s') && Enabled(t, s'.marking)
  {
    if t.Connect? || t.OnOpen? || t.OnCloseConnecting? || t.OnCloseConnected? || t.Reconnect? {
      s' := ToConnection(s0, s, t);
    } else if t.Subscribe? || t.SwitchFrom? || t.AbandonSubscribe? {
      s' := ToSession(s0, s, t);
    } else {
      s' := ToReplay(s0, s, t);
    }
  }

  /** A running action can write any of its legs; the router's needs a message of the right kind. */
  lemma WriteLeg(s: State, before: State, t: Transition, leg: nat)
    requires Reachable(s) && LeadsTo(s, before) && Reachable(before) && |before.flights| == 1 && before.flights[0].t == t
    requires leg < |Legs(t, before.marking)|
    requires t.RouteMessage? ==> |before.flights[0].held| == 1 && (leg == 0 <==> before.flights[0].held[0].Known?)
    ensures CanWrite(s, t, leg)
  {
    var l := Legs(t, before.marking)[leg];
    var after := Landed(before, 0, l.marking, l.ending);
    assert Completes(before, 0, leg, after);
  }

  lemma WriteOwnLeg(s: State, calm: State, t: Transition, leg: nat)
    requires Reachable(s) && LeadsTo(s, calm) && Calm(calm) && InNet(t) && !Routes(t) && leg < |Legs(t, calm.marking)|
    ensures CanWrite(s, t, leg)
  {
    var ready := ToStart(s, calm, t);
    var started := ready.(marking := Consume(t, ready.marking), flights := [Flight(t, [])]);
    assert ready.flights + [Flight(t, [])] == [Flight(t, [])];
    assert Next(ready, Start(t, 0), started);
    LeadsOn(s, ready, Start(t, 0), started);
    SameLegs(t, calm.marking, started.marking);
    WriteLeg(s, started, t, leg);
  }

  lemma SameLegs(t: Transition, a: Marking, b: Marking)
    ensures |Legs(t, a)| == |Legs(t, b)|
  {
  }

  lemma WriteHandlerLeg(s: State, calm: State, t: Transition, leg: nat)
    requires Reachable(s) && LeadsTo(s, calm) && Calm(calm) && InNet(t) && HandlesKind(t) && leg < |Legs(t, calm.marking)|
    ensures CanWrite(s, t, leg)
  {
    var ready := ToHandler(s, calm, t);
    var handling := Handle(s, ready, t);
    SameLegs(t, calm.marking, handling.marking);
    WriteLeg(s, handling, t, leg);
  }

  lemma WriteRouterLeg(s: State, calm: State, t: Transition, leg: nat)
    requires Reachable(s) && LeadsTo(s, calm) && Calm(calm) && (t.RouteMessage? || t.LogDeadLetter?) && leg < |Legs(t, calm.marking)|
    ensures CanWrite(s, t, leg)
  {
    if t.RouteMessage? {
      var taken := Take(s, calm, if leg == 0 then Known(SessionList, 0) else Unknown(0));
      WriteLeg(s, taken, t, leg);
    } else {
      var letter := Dispatch(s, calm, Unknown(0));
      var logging := letter.(letters := [], flights := [Flight(LogDeadLetter, [Unknown(0)])]);
      assert letter.letters[1..] == [] && letter.flights + [Flight(LogDeadLetter, [Unknown(0)])] == logging.flights;
      assert Next(letter, Start(LogDeadLetter, 0), logging);
      LeadsOn(s, letter, Start(LogDeadLetter, 0), logging);
      WriteLeg(s, logging, t, leg);
    }
  }

  /**
   From every reachable state some run writes any given leg of any given transition: no
   transition, success or failure is ever lost.
   */
  lemma EveryLegIsLive(s: State, t: Transition, leg: nat)
    requires Reachable(s) && InNet(t) && leg < |Legs(t, s.marking)|
    ensures CanWrite(s, t, leg)
  {
    var calm := CalmDown(s);
    SameLegs(t, s.marking, calm.marking);
    if HandlesKind(t) {
      WriteHandlerLeg(s, calm, t, leg);
    } else if t.RouteMessage? || t.LogDeadLetter? {
      WriteRouterLeg(s, calm, t, leg);
    } else {
      WriteOwnLeg(s, calm, t, leg);
    }
  }
}
