/**
 The debug net as a table of arcs, one row a transition: the places it takes from, reads and is
 inhibited by, and the places each of its output legs writes. The step of the model follows it.
 */
module DebugArcs {
  import opened DebugNet

  /** The places without messages. */
  datatype Spot =
    | Idle | Connecting | IsConnected | WaitReconnect
    | NoSession | IsSubscribing | SubscribedSession | LiveSession | ReplaySession
    | UiState | ReplayPaused | ReplayPlaying | BreakpointPaused | AutoStepTick
    | Breakpoints | RouterReady | UserSelectSession | DeepLink

  function On(p: Spot, m: Marking): nat {
    match p
    case Idle => m.idle
    case Connecting => m.connecting
    case IsConnected => m.connected
    case WaitReconnect => m.waitReconnect
    case NoSession => m.noSession
    case IsSubscribing => m.subscribing
    case SubscribedSession => m.subscribedSession
    case LiveSession => m.liveSession
    case ReplaySession => m.replaySession
    case UiState => m.uiState
    case ReplayPaused => m.replayPaused
    case ReplayPlaying => m.replayPlaying
    case BreakpointPaused => m.breakpointPaused
    case AutoStepTick => m.autoStepTick
    case Breakpoints => m.breakpoints
    case RouterReady => m.routerReady
    case UserSelectSession => m.userSelectSession
    case DeepLink => m.deepLink
  }

  /** The arcs of a transition, its message aside; `outputs` has one set for each leg. */
  datatype Arcs = Arcs(inputs: set<Spot>, tests: set<Spot>, inhibitors: set<Spot>, outputs: seq<set<Spot>>)

  function ArcsOf(t: Transition): Arcs {
    match t
    case Connect => Arcs({Idle}, {}, {}, [{Connecting}, {WaitReconnect}])
    case OnOpen => Arcs({Connecting}, {}, {}, [{IsConnected}])
    case OnCloseConnecting => Arcs({Connecting}, {}, {}, [{WaitReconnect}])
    case OnCloseConnected => Arcs({IsConnected}, {}, {}, [{WaitReconnect}])
    case Reconnect => Arcs({WaitReconnect}, {}, {}, [{Idle}])
    case Subscribe => Arcs({NoSession, UserSelectSession}, {IsConnected}, {}, [{IsSubscribing}, {NoSession}])
    case SwitchFrom(Live) =>
      Arcs({SubscribedSession, UserSelectSession, UiState, LiveSession}, {IsConnected}, {}, [{IsSubscribing}, {NoSession}])
    case SwitchFrom(Paused) =>
      Arcs({SubscribedSession, UserSelectSession, UiState, ReplaySession, ReplayPaused}, {IsConnected}, {},
           [{IsSubscribing}, {NoSession}])
    case SwitchFrom(Playing) =>
      Arcs({SubscribedSession, UserSelectSession, UiState, ReplaySession, ReplayPlaying}, {IsConnected}, {},
           [{IsSubscribing}, {NoSession}])
    case SwitchFrom(AtBreakpoint) =>
      Arcs({SubscribedSession, UserSelectSession, UiState, ReplaySession, BreakpointPaused}, {IsConnected}, {},
           [{IsSubscribing}, {NoSession}])
    case AbandonSubscribe => Arcs({IsSubscribing}, {}, {IsConnected}, [{NoSession}])
    case RouteMessage => Arcs({RouterReady}, {}, {}, [{}, {}])
    case LogDeadLetter => Arcs({}, {}, {}, [{RouterReady}])
    case OnSubscribed =>
      Arcs({IsSubscribing}, {}, {},
           [{SubscribedSession, LiveSession, UiState, RouterReady},
            {SubscribedSession, ReplaySession, ReplayPaused, UiState, RouterReady}, {NoSession}])
    case DropSubscribed => Arcs({}, {}, {IsSubscribing}, [{}])
    case OnSessionList => Arcs({}, {}, {DeepLink}, [{RouterReady}, {}])
    case OnSessionListDeepLink => Arcs({DeepLink}, {}, {}, [{RouterReady, UserSelectSession}, {RouterReady}, {}])
    case OnMessage(_) => Arcs({}, {}, {}, [{RouterReady}, {}])
    case OnEvent => Arcs({UiState}, {SubscribedSession}, {}, [{UiState, RouterReady}, {UiState}])
    case OnEventBatch => Arcs({UiState}, {SubscribedSession, LiveSession}, {}, [{UiState, RouterReady}, {UiState}])
    case OnReplayEventBatch => Arcs({UiState}, {SubscribedSession, ReplaySession}, {}, [{UiState, RouterReady}, {UiState}])
    case OnMarkingSnapshot => Arcs({UiState}, {SubscribedSession}, {}, [{UiState, RouterReady}, {UiState}])
    case DropWithoutSession(_) => Arcs({}, {}, {SubscribedSession}, [{}])
    case OnBreakpointList => Arcs({Breakpoints}, {}, {}, [{Breakpoints, RouterReady}, {Breakpoints}])
    case OnArchiveImported => Arcs({}, {}, {}, [{RouterReady, UserSelectSession}, {}])
    case ReplayPlay => Arcs({ReplayPaused}, {ReplaySession}, {}, [{ReplayPlaying, AutoStepTick}])
    case ReplayPlayFromBreakpoint => Arcs({BreakpointPaused}, {ReplaySession}, {}, [{ReplayPlaying, AutoStepTick}])
    case ReplayAutoStep =>
      Arcs({AutoStepTick, ReplayPlaying, UiState}, {Breakpoints}, {},
           [{UiState, ReplayPlaying}, {UiState, ReplayPaused}, {UiState, BreakpointPaused}])
    case ReplayPause => Arcs({ReplayPlaying}, {}, {}, [{ReplayPaused}])
    case DropStaleTick => Arcs({AutoStepTick}, {}, {ReplayPlaying}, [{}])
    case ReplayCommand => Arcs({UiState}, {ReplaySession}, {}, [{UiState}])
    case EditBreakpoints => Arcs({Breakpoints}, {}, {}, [{Breakpoints}])
  }

  /** The rows that take a routed message, log a letter or route write what becomes of the message. */
  function EndingOf(t: Transition, leg: nat): Ending
    requires leg < |ArcsOf(t).outputs|
  {
    if !Routes(t) then NoMessage
    else if RouterReady in ArcsOf(t).outputs[leg] then Handled
    else if t.RouteMessage? && leg == 0 then Routed
    else Lettered
  }

  /** The arcs between `t` and `p` allow `t`. */
  predicate AllowsAt(t: Transition, m: Marking, p: Spot) {
    && (p in ArcsOf(t).inputs || p in ArcsOf(t).tests ==> On(p, m) >= 1)
    && (p in ArcsOf(t).inhibitors ==> On(p, m) == 0)
  }

  ghost predicate EnabledByArcs(t: Transition, m: Marking) {
    forall p :: AllowsAt(t, m, p)
  }

  lemma StateAllows(t: Transition, m: Marking, p: Spot)
    requires Enabled(t, m) && OfState(t)
    ensures AllowsAt(t, m, p)
  {
  }

  lemma RoutingAllows(t: Transition, m: Marking, p: Spot)
    requires Enabled(t, m) && Routes(t) && !OfState(t)
    ensures AllowsAt(t, m, p)
  {
  }

  lemma SwitchAllows(t: Transition, m: Marking, p: Spot)
    requires Enabled(t, m) && t.SwitchFrom?
    ensures AllowsAt(t, m, p)
  {
  }

  lemma PlaybackAllows(t: Transition, m: Marking, p: Spot)
    requires Enabled(t, m) && OfPlayback(t)
    ensures AllowsAt(t, m, p)
  {
  }

  lemma OthersAllow(t: Transition, m: Marking, p: Spot)
    requires Enabled(t, m) && !Routes(t) && !t.SwitchFrom? && !OfPlayback(t) && !OfState(t)
    ensures AllowsAt(t, m, p)
  {
  }

  lemma SessionSpots(m: Marking)
    ensures On(NoSession, m) == m.noSession && On(IsSubscribing, m) == m.subscribing
    ensures On(SubscribedSession, m) == m.subscribedSession && On(LiveSession, m) == m.liveSession
    ensures On(ReplaySession, m) == m.replaySession && On(UiState, m) == m.uiState
    ensures On(ReplayPaused, m) == m.replayPaused && On(ReplayPlaying, m) == m.replayPlaying
    ensures On(BreakpointPaused, m) == m.breakpointPaused
  {
  }

  lemma OtherSpots(m: Marking)
    ensures On(Idle, m) == m.idle && On(Connecting, m) == m.connecting && On(IsConnected, m) == m.connected
    ensures On(WaitReconnect, m) == m.waitReconnect && On(AutoStepTick, m) == m.autoStepTick
    ensures On(Breakpoints, m) == m.breakpoints && On(RouterReady, m) == m.routerReady
    ensures On(UserSelectSession, m) == m.userSelectSession && On(DeepLink, m) == m.deepLink
  {
  }

  lemma AllowedIsEnabled(t: Transition, m: Marking)
    requires EnabledByArcs(t, m)
    ensures Enabled(t, m)
  {
    SessionSpots(m);
    OtherSpots(m);
    assert AllowsAt(t, m, NoSession) && AllowsAt(t, m, IsSubscribing) && AllowsAt(t, m, SubscribedSession);
    assert AllowsAt(t, m, LiveSession) && AllowsAt(t, m, ReplaySession) && AllowsAt(t, m, UiState);
    assert AllowsAt(t, m, ReplayPaused) && AllowsAt(t, m, ReplayPlaying) && AllowsAt(t, m, BreakpointPaused);
    assert AllowsAt(t, m, Idle) && AllowsAt(t, m, Connecting) && AllowsAt(t, m, IsConnected);
    assert AllowsAt(t, m, WaitReconnect) && AllowsAt(t, m, AutoStepTick) && AllowsAt(t, m, Breakpoints);
    assert AllowsAt(t, m, RouterReady) && AllowsAt(t, m, UserSelectSession) && AllowsAt(t, m, DeepLink);
  }

  /** A transition is enabled exactly when its row of arcs allows. */
  lemma EnabledIffArcs(t: Transition, m: Marking)
    ensures Enabled(t, m) <==> EnabledByArcs(t, m)
  {
    if Enabled(t, m) {
      forall p
        ensures AllowsAt(t, m, p)
      {
        if OfState(t) {
          StateAllows(t, m, p);
        } else if Routes(t) {
          RoutingAllows(t, m, p);
        } else if t.SwitchFrom? {
          SwitchAllows(t, m, p);
        } else if OfPlayback(t) {
          PlaybackAllows(t, m, p);
        } else {
          OthersAllow(t, m, p);
        }
      }
    }
    if EnabledByArcs(t, m) {
      AllowedIsEnabled(t, m);
    }
  }

  predicate OfSession(t: Transition) {
    t.Subscribe? || t.AbandonSubscribe? || t.OnSubscribed? || t.DropSubscribed? || t.DropWithoutSession?
  }

  predicate OfState(t: Transition) {
    t.OnEvent? || t.OnEventBatch? || t.OnReplayEventBatch? || t.OnMarkingSnapshot? || t.ReplayCommand?
  }

  predicate OfPlayback(t: Transition) {
    t.ReplayPlay? || t.ReplayPlayFromBreakpoint? || t.ReplayAutoStep? || t.ReplayPause? || t.DropStaleTick?
  }

  predicate OfRouter(t: Transition) {
    t.RouteMessage? || t.LogDeadLetter? || t.OnSessionList? || t.OnSessionListDeepLink? || t.OnMessage? ||
    t.OnBreakpointList? || t.OnArchiveImported? || t.EditBreakpoints?
  }

  predicate ConsumesAt(t: Transition, m: Marking, p: Spot)
    requires Enabled(t, m)
  {
    On(p, Consume(t, m)) == On(p, m) - if p in ArcsOf(t).inputs then 1 else 0
  }

  ghost predicate ConsumesByArcs(t: Transition, m: Marking)
    requires Enabled(t, m)
  {
    forall p :: ConsumesAt(t, m, p)
  }

  lemma ConsumeOfConnect(m: Marking, p: Spot)
    requires Enabled(Connect, m)
    ensures ConsumesAt(Connect, m, p)
  {
  }

  lemma ConsumeOfOpen(m: Marking, p: Spot)
    requires Enabled(OnOpen, m)
    ensures ConsumesAt(OnOpen, m, p)
  {
  }

  lemma ConsumeOfReconnect(m: Marking, p: Spot)
    requires Enabled(Reconnect, m)
    ensures ConsumesAt(Reconnect, m, p)
  {
  }

  lemma ConsumeOfClose(t: Transition, m: Marking, p: Spot)
    requires Enabled(t, m) && (t.OnCloseConnecting? || t.OnCloseConnected?)
    ensures ConsumesAt(t, m, p)
  {
  }

  lemma ConsumeOfSubscribe(m: Marking, p: Spot)
    requires Enabled(Subscribe, m)
    ensures ConsumesAt(Subscribe, m, p)
  {
  }

  lemma ConsumeOfSession(t: Transition, m: Marking, p: Spot)
    requires Enabled(t, m) && OfSession(t) && !t.Subscribe?
    ensures ConsumesAt(t, m, p)
  {
  }

  lemma ConsumeOfSwitch(mode: Mode, m: Marking, p: Spot)
    requires Enabled(SwitchFrom(mode), m) && (mode == Live || mode == Paused)
    ensures ConsumesAt(SwitchFrom(mode), m, p)
  {
  }

  lemma ConsumeOfOtherSwitch(mode: Mode, m: Marking, p: Spot)
    requires Enabled(SwitchFrom(mode), m) && (mode == Playing || mode == AtBreakpoint)
    ensures ConsumesAt(SwitchFrom(mode), m, p)
  {
  }

  lemma ConsumeOfState(t: Transition, m: Marking, p: Spot)
    requires Enabled(t, m) && OfState(t)
    ensures ConsumesAt(t, m, p)
  {
  }

  lemma ConsumeOfStep(m: Marking, p: Spot)
    requires Enabled(ReplayAutoStep, m)
    ensures ConsumesAt(ReplayAutoStep, m, p)
  {
  }

  lemma ConsumeOfPlayback(t: Transition, m: Marking, p: Spot)
    requires Enabled(t, m) && (t.ReplayPlay? || t.ReplayPlayFromBreakpoint?)
    ensures ConsumesAt(t, m, p)
  {
  }

  lemma ConsumeOfPause(t: Transition, m: Marking, p: Spot)
    requires Enabled(t, m) && (t.ReplayPause? || t.DropStaleTick?)
    ensures ConsumesAt(t, m, p)
  {
  }

  lemma ConsumeOfList(t: Transition, m: Marking, p: Spot)
    requires Enabled(t, m) && (t.OnSessionList? || t.OnSessionListDeepLink? || t.OnBreakpointList? || t.EditBreakpoints?)
    ensures ConsumesAt(t, m, p)
  {
  }

  lemma ConsumeOfRouter(t: Transition, m: Marking, p: Spot)
    requires Enabled(t, m) && (t.RouteMessage? || t.LogDeadLetter? || t.OnMessage? || t.OnArchiveImported?)
    ensures ConsumesAt(t, m, p)
  {
  }

  lemma ConsumeAt(t: Transition, m: Marking, p: Spot)
    requires Enabled(t, m)
    ensures ConsumesAt(t, m, p)
  {
    if t.OnCloseConnecting? || t.OnCloseConnected? {
      ConsumeOfClose(t, m, p);
    } else if t.Connect? {
      ConsumeOfConnect(m, p);
    } else if t.OnOpen? {
      ConsumeOfOpen(m, p);
    } else if t.Reconnect? {
      ConsumeOfReconnect(m, p);
    } else if t.Subscribe? {
      ConsumeOfSubscribe(m, p);
    } else if OfSession(t) {
      ConsumeOfSession(t, m, p);
    } else if t == SwitchFrom(Live) || t == SwitchFrom(Paused) {
      ConsumeOfSwitch(t.mode, m, p);
    } else if t.SwitchFrom? {
      ConsumeOfOtherSwitch(t.mode, m, p);
    } else if OfState(t) {
      ConsumeOfState(t, m, p);
    } else if t.ReplayAutoStep? {
      ConsumeOfStep(m, p);
    } else if t.ReplayPlay? || t.ReplayPlayFromBreakpoint? {
      ConsumeOfPlayback(t, m, p);
    } else if OfPlayback(t) {
      ConsumeOfPause(t, m, p);
    } else if t.OnSessionList? || t.OnSessionListDeepLink? || t.OnBreakpointList? || t.EditBreakpoints? {
      ConsumeOfList(t, m, p);
    } else {
      ConsumeOfRouter(t, m, p);
    }
  }

  /** A start takes one token from each input and nothing else. */
  lemma ConsumeByArcs(t: Transition, m: Marking)
    requires Enabled(t, m)
    ensures ConsumesByArcs(t, m)
  {
    forall p
      ensures ConsumesAt(t, m, p)
    {
      ConsumeAt(t, m, p);
    }
  }

  predicate WritesAt(t: Transition, m: Marking, leg: nat, p: Spot)
    requires leg < |Legs(t, m)| && leg < |ArcsOf(t).outputs|
  {
    On(p, Legs(t, m)[leg].marking) == On(p, m) + if p in ArcsOf(t).outputs[leg] then 1 else 0
  }

  lemma EndingsByArcs(t: Transition, m: Marking, leg: nat)
    requires leg < |ArcsOf(t).outputs|
    ensures |Legs(t, m)| == |ArcsOf(t).outputs| && Legs(t, m)[leg].ending == EndingOf(t, leg)
  {
  }

  ghost predicate WritesByArcs(t: Transition, m: Marking, leg: nat)
    requires leg < |Legs(t, m)| && leg < |ArcsOf(t).outputs|
  {
    forall p :: WritesAt(t, m, leg, p)
  }

  lemma LegsOfConnect(t: Transition, m: Marking, leg: nat, p: Spot)
    requires leg < |ArcsOf(t).outputs| && leg < |Legs(t, m)| && (t.Connect?)
    ensures WritesAt(t, m, leg, p)
  {
  }

  lemma LegsOfConnection(t: Transition, m: Marking, leg: nat, p: Spot)
    requires leg < |ArcsOf(t).outputs| && leg < |Legs(t, m)| && (t.OnOpen?)
    ensures WritesAt(t, m, leg, p)
  {
  }

  lemma LegsOfCloseConnecting(m: Marking, p: Spot)
    ensures WritesAt(OnCloseConnecting, m, 0, p)
  {
  }

  lemma LegsOfCloseConnected(m: Marking, p: Spot)
    ensures WritesAt(OnCloseConnected, m, 0, p)
  {
  }

  lemma LegsOfReconnect(m: Marking, p: Spot)
    ensures WritesAt(Reconnect, m, 0, p)
  {
  }

  lemma LegsOfSession(t: Transition, m: Marking, leg: nat, p: Spot)
    requires leg < |ArcsOf(t).outputs| && leg < |Legs(t, m)| && (t.OnSubscribed?)
    ensures WritesAt(t, m, leg, p)
  {
  }

  lemma LegsOfPhase(t: Transition, m: Marking, leg: nat, p: Spot)
    requires leg < |ArcsOf(t).outputs| && leg < |Legs(t, m)| && (OfSession(t) && !t.OnSubscribed?)
    ensures WritesAt(t, m, leg, p)
  {
  }

  lemma LegsOfSwitch(t: Transition, m: Marking, leg: nat, p: Spot)
    requires leg < |ArcsOf(t).outputs| && t.SwitchFrom?
    ensures WritesAt(t, m, leg, p)
  {
  }

  lemma LegsOfFold(m: Marking, leg: nat, p: Spot)
    requires leg < 2
    ensures On(p, SessionLegs(m)[leg].marking) ==
            On(p, m) + if p == UiState || (p == RouterReady && leg == 0) then 1 else 0
    ensures |SessionLegs(m)| == 2 && SessionLegs(m)[leg].ending == if leg == 0 then Handled else Lettered
  {
  }

  lemma LegsOfEvent(m: Marking, leg: nat, p: Spot)
    requires leg < 2 && leg < |Legs(OnEvent, m)|
    ensures WritesAt(OnEvent, m, leg, p)
  {
    LegsOfFold(m, leg, p);
  }

  lemma LegsOfEventBatch(m: Marking, leg: nat, p: Spot)
    requires leg < 2 && leg < |Legs(OnEventBatch, m)|
    ensures WritesAt(OnEventBatch, m, leg, p)
  {
    LegsOfFold(m, leg, p);
  }

  lemma LegsOfReplayBatch(m: Marking, leg: nat, p: Spot)
    requires leg < 2 && leg < |Legs(OnReplayEventBatch, m)|
    ensures WritesAt(OnReplayEventBatch, m, leg, p)
  {
    LegsOfFold(m, leg, p);
  }

  lemma LegsOfSnapshot(m: Marking, leg: nat, p: Spot)
    requires leg < 2 && leg < |Legs(OnMarkingSnapshot, m)|
    ensures WritesAt(OnMarkingSnapshot, m, leg, p)
  {
    LegsOfFold(m, leg, p);
  }

  lemma LegsOfCommand(t: Transition, m: Marking, leg: nat, p: Spot)
    requires leg < |ArcsOf(t).outputs| && leg < |Legs(t, m)| && (t.ReplayCommand?)
    ensures WritesAt(t, m, leg, p)
  {
  }

  lemma LegsOfPlayback(t: Transition, m: Marking, leg: nat, p: Spot)
    requires leg < |ArcsOf(t).outputs| && leg < |Legs(t, m)| && (t.ReplayAutoStep?)
    ensures WritesAt(t, m, leg, p)
  {
  }

  lemma LegsOfReplayPlay(m: Marking, p: Spot)
    ensures WritesAt(ReplayPlay, m, 0, p)
  {
  }

  lemma LegsOfPlayFromBreakpoint(m: Marking, p: Spot)
    ensures WritesAt(ReplayPlayFromBreakpoint, m, 0, p)
  {
  }

  lemma LegsOfPause(m: Marking, p: Spot)
    ensures WritesAt(ReplayPause, m, 0, p)
  {
  }

  lemma LegsOfDropTick(m: Marking, p: Spot)
    ensures WritesAt(DropStaleTick, m, 0, p)
  {
  }

  lemma LegsOfRouter(t: Transition, m: Marking, leg: nat, p: Spot)
    requires leg < |ArcsOf(t).outputs| && leg < |Legs(t, m)| && (t.OnSessionListDeepLink?)
    ensures WritesAt(t, m, leg, p)
  {
  }

  lemma LegsOfList(t: Transition, m: Marking, leg: nat, p: Spot)
    requires leg < |ArcsOf(t).outputs| && leg < |Legs(t, m)| && (t.OnBreakpointList?)
    ensures WritesAt(t, m, leg, p)
  {
  }

  lemma LegsOfImport(t: Transition, m: Marking, leg: nat, p: Spot)
    requires leg < |ArcsOf(t).outputs| && leg < |Legs(t, m)| && (t.OnArchiveImported?)
    ensures WritesAt(t, m, leg, p)
  {
  }

  lemma LegsOfMessage(t: Transition, m: Marking, leg: nat, p: Spot)
    requires leg < |ArcsOf(t).outputs| && leg < |Legs(t, m)| && (OfRouter(t) && !(t.OnSessionListDeepLink? || t.OnBreakpointList? || t.OnArchiveImported?))
    ensures WritesAt(t, m, leg, p)
  {
  }

  lemma LegAt(t: Transition, m: Marking, leg: nat, p: Spot)
    requires leg < |ArcsOf(t).outputs| && leg < |Legs(t, m)|
    ensures WritesAt(t, m, leg, p)
  {
    if t.Connect? {
      LegsOfConnect(t, m, leg, p);
    } else if t.OnOpen? {
      LegsOfConnection(t, m, leg, p);
    } else if t.OnCloseConnecting? {
      LegsOfCloseConnecting(m, p);
    } else if t.OnCloseConnected? {
      LegsOfCloseConnected(m, p);
    } else if t.Reconnect? {
      LegsOfReconnect(m, p);
    } else if t.OnSubscribed? {
      LegsOfSession(t, m, leg, p);
    } else if OfSession(t) {
      LegsOfPhase(t, m, leg, p);
    } else if t.SwitchFrom? {
      LegsOfSwitch(t, m, leg, p);
    } else if t.ReplayCommand? {
      LegsOfCommand(t, m, leg, p);
    } else if t.OnEvent? {
      LegsOfEvent(m, leg, p);
    } else if t.OnEventBatch? {
      LegsOfEventBatch(m, leg, p);
    } else if t.OnReplayEventBatch? {
      LegsOfReplayBatch(m, leg, p);
    } else if t.OnMarkingSnapshot? {
      LegsOfSnapshot(m, leg, p);
    } else if t.ReplayAutoStep? {
      LegsOfPlayback(t, m, leg, p);
    } else if t.ReplayPlay? {
      LegsOfReplayPlay(m, p);
    } else if t.ReplayPlayFromBreakpoint? {
      LegsOfPlayFromBreakpoint(m, p);
    } else if t.ReplayPause? {
      LegsOfPause(m, p);
    } else if t.DropStaleTick? {
      LegsOfDropTick(m, p);
    } else if t.OnSessionListDeepLink? {
      LegsOfRouter(t, m, leg, p);
    } else if t.OnBreakpointList? {
      LegsOfList(t, m, leg, p);
    } else if t.OnArchiveImported? {
      LegsOfImport(t, m, leg, p);
    } else {
      LegsOfMessage(t, m, leg, p);
    }
  }

  /** A completion writes one token to each place of its leg and nothing else. */
  lemma LegsByArcs(t: Transition, m: Marking, leg: nat)
    requires leg < |ArcsOf(t).outputs|
    ensures |Legs(t, m)| == |ArcsOf(t).outputs| && Legs(t, m)[leg].ending == EndingOf(t, leg)
    ensures WritesByArcs(t, m, leg)
  {
    EndingsByArcs(t, m, leg);
    forall p
      ensures WritesAt(t, m, leg, p)
    {
      LegAt(t, m, leg, p);
    }
  }

  lemma SameEverywhere(a: Marking, b: Marking)
    requires forall p: Spot :: On(p, a) == On(p, b)
    ensures a == b
  {
    SessionSpots(a);
    SessionSpots(b);
    OtherSpots(a);
    OtherSpots(b);
  }

  /** The net starts idle, without a session, with the router's permit and the breakpoint list. */
  lemma InitialTokens(p: Spot)
    ensures On(p, INITIAL.marking) == if p in {Idle, NoSession, RouterReady, Breakpoints} then 1 else 0
    ensures INITIAL.flights == [] && INITIAL.waiting == INITIAL.routed == INITIAL.letters == INITIAL.done == []
  {
  }

  // ----- steps -----------------------------------------------------------------------

  /** `m'` is `m` with one token less on each place of `taken` and one more on each of `given`. */
  ghost predicate Moves(m: Marking, taken: set<Spot>, given: set<Spot>, m': Marking) {
    forall p :: MovesAt(m, taken, given, m', p)
  }

  predicate MovesAt(m: Marking, taken: set<Spot>, given: set<Spot>, m': Marking, p: Spot) {
    On(p, m') == On(p, m) - (if p in taken then 1 else 0) + if p in given then 1 else 0
  }

  /** The marking after such a move is determined. */
  lemma MovesToOne(m: Marking, taken: set<Spot>, given: set<Spot>, a: Marking, b: Marking)
    requires Moves(m, taken, given, a) && Moves(m, taken, given, b)
    ensures a == b
  {
    forall p: Spot
      ensures On(p, a) == On(p, b)
    {
      assert MovesAt(m, taken, given, a, p) && MovesAt(m, taken, given, b, p);
    }
    SameEverywhere(a, b);
  }

  /** When `t` may start, and the marking it leaves, are what its row of arcs says. */
  lemma StartsByArcs(s: State, t: Transition, j: nat, s': State)
    requires Starts(s, t, j, s')
    ensures EnabledByArcs(t, s.marking) && Moves(s.marking, ArcsOf(t).inputs, {}, s'.marking)
    ensures forall m :: Moves(s.marking, ArcsOf(t).inputs, {}, m) ==> m == s'.marking
  {
    EnabledIffArcs(t, s.marking);
    ConsumeByArcs(t, s.marking);
    assert s'.marking == Consume(t, s.marking);
    forall p
      ensures MovesAt(s.marking, ArcsOf(t).inputs, {}, s'.marking, p)
    {
      assert ConsumesAt(t, s.marking, p);
    }
    forall m | Moves(s.marking, ArcsOf(t).inputs, {}, m)
      ensures m == s'.marking
    {
      MovesToOne(s.marking, ArcsOf(t).inputs, {}, m, s'.marking);
    }
  }

  /** The leg a completion writes is one of its row, with the marking that row says. */
  lemma CompletesByArcs(s: State, i: nat, leg: nat, s': State)
    requires Completes(s, i, leg, s')
    ensures leg < |ArcsOf(s.flights[i].t).outputs|
    ensures Moves(s.marking, {}, ArcsOf(s.flights[i].t).outputs[leg], s'.marking)
    ensures forall m :: Moves(s.marking, {}, ArcsOf(s.flights[i].t).outputs[leg], m) ==> m == s'.marking
  {
    var t := s.flights[i].t;
    LegsByArcs(t, s.marking, 0);
    LegsByArcs(t, s.marking, leg);
    assert s'.marking == Legs(t, s.marking)[leg].marking;
    forall p
      ensures MovesAt(s.marking, {}, ArcsOf(t).outputs[leg], s'.marking, p)
    {
      assert WritesAt(t, s.marking, leg, p);
    }
    forall m | Moves(s.marking, {}, ArcsOf(t).outputs[leg], m)
      ensures m == s'.marking
    {
      MovesToOne(s.marking, {}, ArcsOf(t).outputs[leg], m, s'.marking);
    }
  }

  /** A transition may start exactly if its row of arcs allows and the message it takes is there. */
  lemma CanStartIffArcs(s: State, t: Transition)
    ensures (exists j: nat, s' :: Starts(s, t, j, s')) <==>
      && InNet(t) && !InFlight(t, s) && EnabledByArcs(t, s.marking)
      && (t.RouteMessage? ==> s.waiting != []) && (t.LogDeadLetter? ==> s.letters != [])
      && (HandlesKind(t) ==> exists j :: 0 <= j < |s.routed| && Takes(t, s.routed[j]))
  {
    EnabledIffArcs(t, s.marking);
    if CanStart(t, s) {
      var m := Consume(t, s.marking);
      if t.RouteMessage? {
        var s' := s.(marking := m, waiting := s.waiting[1..], flights := s.flights + [Flight(t, [s.waiting[0]])]);
        assert Starts(s, t, 0, s');
      } else if t.LogDeadLetter? {
        var s' := s.(marking := m, letters := s.letters[1..], flights := s.flights + [Flight(t, [s.letters[0]])]);
        assert Starts(s, t, 0, s');
      } else if HandlesKind(t) {
        var j: nat :| j < |s.routed| && Takes(t, s.routed[j]);
        var s' := s.(marking := m, routed := RemoveAt(s.routed, j), flights := s.flights + [Flight(t, [s.routed[j]])]);
        assert Starts(s, t, j, s');
      } else {
        assert Starts(s, t, 0, s.(marking := m, flights := s.flights + [Flight(t, [])]));
      }
    }
  }

  /** A running action may end with each leg of its row; the router's leg follows from the message's type. */
  lemma CanCompleteIffArcs(s: State, i: nat, leg: nat)
    ensures (exists s' :: Completes(s, i, leg, s')) <==>
      && i < |s.flights| && leg < |ArcsOf(s.flights[i].t).outputs|
      && (s.flights[i].t.RouteMessage? ==> |s.flights[i].held| == 1 && (leg == 0 <==> s.flights[i].held[0].Known?))
  {
    if i < |s.flights| {
      var f := s.flights[i];
      LegsByArcs(f.t, s.marking, 0);
      if leg < |ArcsOf(f.t).outputs| {
        LegsByArcs(f.t, s.marking, leg);
        var after := s.(marking := Legs(f.t, s.marking)[leg].marking, flights := RemoveAt(s.flights, i));
        var s' := match EndingOf(f.t, leg)
          case NoMessage => after
          case Handled => after.(done := s.done + f.held)
          case Lettered => after.(letters := s.letters + f.held)
          case Routed => after.(routed := s.routed + f.held);
        assert (f.t.RouteMessage? ==> |f.held| == 1 && (leg == 0 <==> f.held[0].Known?)) ==> Completes(s, i, leg, s');
      }
    }
  }
}
