/**
 The debug UI's net around its message router, sessions and replay playback, with actions split
 into start and completion: the executor takes the inputs before an action runs, other
 transitions fire meanwhile, and the action's result is one complete output leg. What the
 environment delivers (messages, selections, ticks, clicks) may arrive at any time.

 Messages are tracked by value. Places that only feed repaints and panels are left out, and so
 are the click places: a transition that waits for a click may start whenever its other
 inputs allow.
 */
module DebugNet {

  /** The protocol message types. */
  datatype Kind =
    | SessionList | Subscribed | Unsubscribed | Event | EventBatch | MarkingSnapshot
    | PlaybackStateChanged | FilterApplied | BreakpointHit | BreakpointList | BreakpointSet
    | BreakpointCleared | ProtocolError | ArchiveList | ArchiveImported

  /** A frame as it arrives: its type, if it is one the protocol knows, and an identity. */
  datatype Message = Known(kind: Kind, id: nat) | Unknown(id: nat)

  /** Tokens that carry no message. */
  datatype Marking = Marking(
    idle: nat, connecting: nat, connected: nat, waitReconnect: nat,
    noSession: nat, subscribing: nat, subscribedSession: nat, liveSession: nat, replaySession: nat,
    uiState: nat, replayPaused: nat, replayPlaying: nat, breakpointPaused: nat, autoStepTick: nat,
    breakpoints: nat, routerReady: nat, userSelectSession: nat, deepLink: nat)

  /** Which mode tokens a subscribed session has beside `liveSession` or `replaySession`. */
  datatype Mode = Live | Paused | Playing | AtBreakpoint

  datatype Transition =
    | Connect | OnOpen | OnCloseConnecting | OnCloseConnected | Reconnect
    | Subscribe | SwitchFrom(mode: Mode) | AbandonSubscribe
    | RouteMessage | LogDeadLetter
    | OnSubscribed | DropSubscribed | OnSessionList | OnSessionListDeepLink
    | OnMessage(kind: Kind)
    | OnEvent | OnEventBatch | OnReplayEventBatch | OnMarkingSnapshot | DropWithoutSession(kind: Kind)
    | OnBreakpointList | OnArchiveImported
    | ReplayPlay | ReplayPlayFromBreakpoint | ReplayAutoStep | ReplayPause | DropStaleTick
    | ReplayCommand | EditBreakpoints

  /** Messages handled without any precondition. */
  predicate IsPlain(k: Kind) {
    k in {Unsubscribed, PlaybackStateChanged, BreakpointHit, BreakpointSet, BreakpointCleared, FilterApplied,
          ProtocolError, ArchiveList}
  }

  /** Messages folded into the state of a session, if there is one. */
  predicate IsSessionMessage(k: Kind) {
    k == Event || k == EventBatch || k == MarkingSnapshot
  }

  predicate InNet(t: Transition) {
    (t.OnMessage? ==> IsPlain(t.kind)) && (t.DropWithoutSession? ==> IsSessionMessage(t.kind))
  }

  /** The transitions whose action holds a message on its way through the router. */
  predicate Routes(t: Transition) {
    t.RouteMessage? || t.LogDeadLetter? || HandlesKind(t)
  }

  predicate HandlesKind(t: Transition) {
    t.OnSubscribed? || t.DropSubscribed? || t.OnSessionList? || t.OnSessionListDeepLink? || t.OnMessage? ||
    t.OnEvent? || t.OnEventBatch? || t.OnReplayEventBatch? || t.OnMarkingSnapshot? || t.DropWithoutSession? ||
    t.OnBreakpointList? || t.OnArchiveImported?
  }

  /** The type of the routed messages `t` takes. */
  function KindOf(t: Transition): Kind
    requires HandlesKind(t)
  {
    match t
    case OnSubscribed => Subscribed
    case DropSubscribed => Subscribed
    case OnSessionList => SessionList
    case OnSessionListDeepLink => SessionList
    case OnMessage(k) => k
    case OnEvent => Event
    case OnEventBatch => EventBatch
    case OnReplayEventBatch => EventBatch
    case OnMarkingSnapshot => MarkingSnapshot
    case DropWithoutSession(k) => k
    case OnBreakpointList => BreakpointList
    case OnArchiveImported => ArchiveImported
  }

  // ----- arcs ------------------------------------------------------------------------

  /** Inputs, read arcs and inhibitors, the message input aside. */
  predicate Enabled(t: Transition, m: Marking) {
    match t
    case Connect => m.idle >= 1
    case OnOpen => m.connecting >= 1
    case OnCloseConnecting => m.connecting >= 1
    case OnCloseConnected => m.connected >= 1
    case Reconnect => m.waitReconnect >= 1
    case Subscribe => m.noSession >= 1 && m.userSelectSession >= 1 && m.connected >= 1
    case SwitchFrom(mode) =>
      m.subscribedSession >= 1 && m.userSelectSession >= 1 && m.uiState >= 1 && m.connected >= 1 && HasMode(mode, m)
    case AbandonSubscribe => m.subscribing >= 1 && m.connected == 0
    case RouteMessage => m.routerReady >= 1
    case LogDeadLetter => true
    case OnSubscribed => m.subscribing >= 1
    case DropSubscribed => m.subscribing == 0
    case OnSessionList => m.deepLink == 0
    case OnSessionListDeepLink => m.deepLink >= 1
    case OnMessage(_) => true
    case OnEvent => m.uiState >= 1 && m.subscribedSession >= 1
    case OnEventBatch => m.uiState >= 1 && m.subscribedSession >= 1 && m.liveSession >= 1
    case OnReplayEventBatch => m.uiState >= 1 && m.subscribedSession >= 1 && m.replaySession >= 1
    case OnMarkingSnapshot => m.uiState >= 1 && m.subscribedSession >= 1
    case DropWithoutSession(_) => m.subscribedSession == 0
    case OnBreakpointList => m.breakpoints >= 1
    case OnArchiveImported => true
    case ReplayPlay => m.replayPaused >= 1 && m.replaySession >= 1
    case ReplayPlayFromBreakpoint => m.breakpointPaused >= 1 && m.replaySession >= 1
    case ReplayAutoStep => m.autoStepTick >= 1 && m.replayPlaying >= 1 && m.uiState >= 1 && m.breakpoints >= 1
    case ReplayPause => m.replayPlaying >= 1
    case DropStaleTick => m.autoStepTick >= 1 && m.replayPlaying == 0
    case ReplayCommand => m.uiState >= 1 && m.replaySession >= 1
    case EditBreakpoints => m.breakpoints >= 1
  }

  /** The mode tokens of `mode` are there. */
  predicate HasMode(mode: Mode, m: Marking) {
    match mode
    case Live => m.liveSession >= 1
    case Paused => m.replaySession >= 1 && m.replayPaused >= 1
    case Playing => m.replaySession >= 1 && m.replayPlaying >= 1
    case AtBreakpoint => m.replaySession >= 1 && m.breakpointPaused >= 1
  }

  function WithoutMode(mode: Mode, m: Marking): Marking
    requires HasMode(mode, m)
  {
    match mode
    case Live => m.(liveSession := m.liveSession - 1)
    case Paused => m.(replaySession := m.replaySession - 1, replayPaused := m.replayPaused - 1)
    case Playing => m.(replaySession := m.replaySession - 1, replayPlaying := m.replayPlaying - 1)
    case AtBreakpoint => m.(replaySession := m.replaySession - 1, breakpointPaused := m.breakpointPaused - 1)
  }

  /** What is left of the marking once `t` has taken its inputs. */
  function Consume(t: Transition, m: Marking): Marking
    requires Enabled(t, m)
  {
    match t
    case Connect => m.(idle := m.idle - 1)
    case OnOpen => m.(connecting := m.connecting - 1)
    case OnCloseConnecting => m.(connecting := m.connecting - 1)
    case OnCloseConnected => m.(connected := m.connected - 1)
    case Reconnect => m.(waitReconnect := m.waitReconnect - 1)
    case Subscribe => m.(noSession := m.noSession - 1, userSelectSession := m.userSelectSession - 1)
    case SwitchFrom(mode) =>
      WithoutMode(mode, m).(subscribedSession := m.subscribedSession - 1, userSelectSession := m.userSelectSession - 1,
                            uiState := m.uiState - 1)
    case AbandonSubscribe => m.(subscribing := m.subscribing - 1)
    case RouteMessage => m.(routerReady := m.routerReady - 1)
    case OnSubscribed => m.(subscribing := m.subscribing - 1)
    case OnSessionListDeepLink => m.(deepLink := m.deepLink - 1)
    case OnEvent => m.(uiState := m.uiState - 1)
    case OnEventBatch => m.(uiState := m.uiState - 1)
    case OnReplayEventBatch => m.(uiState := m.uiState - 1)
    case OnMarkingSnapshot => m.(uiState := m.uiState - 1)
    case OnBreakpointList => m.(breakpoints := m.breakpoints - 1)
    case ReplayPlay => m.(replayPaused := m.replayPaused - 1)
    case ReplayPlayFromBreakpoint => m.(breakpointPaused := m.breakpointPaused - 1)
    case ReplayAutoStep =>
      m.(autoStepTick := m.autoStepTick - 1, replayPlaying := m.replayPlaying - 1, uiState := m.uiState - 1)
    case ReplayPause => m.(replayPlaying := m.replayPlaying - 1)
    case DropStaleTick => m.(autoStepTick := m.autoStepTick - 1)
    case ReplayCommand => m.(uiState := m.uiState - 1)
    case EditBreakpoints => m.(breakpoints := m.breakpoints - 1)
    case _ => m
  }

  /** What becomes of the message an action holds: nothing, the router's permit, or a dead letter. */
  datatype Ending = NoMessage | Handled | Lettered | Routed

  /** A leg: the marking it leaves, and what it does with the message. */
  datatype Leg = Leg(marking: Marking, ending: Ending)

  function Free(m: Marking): Leg {
    Leg(m.(routerReady := m.routerReady + 1), Handled)
  }

  /** The output legs of `t`; a completing action writes exactly one of them. */
  function Legs(t: Transition, m: Marking): seq<Leg> {
    match t
    case Connect =>
      [Leg(m.(connecting := m.connecting + 1), NoMessage), Leg(m.(waitReconnect := m.waitReconnect + 1), NoMessage)]
    case OnOpen => [Leg(m.(connected := m.connected + 1), NoMessage)]
    case OnCloseConnecting => [Leg(m.(waitReconnect := m.waitReconnect + 1), NoMessage)]
    case OnCloseConnected => [Leg(m.(waitReconnect := m.waitReconnect + 1), NoMessage)]
    case Reconnect => [Leg(m.(idle := m.idle + 1), NoMessage)]
    case Subscribe =>
      [Leg(m.(subscribing := m.subscribing + 1), NoMessage), Leg(m.(noSession := m.noSession + 1), NoMessage)]
    case SwitchFrom(_) =>
      [Leg(m.(subscribing := m.subscribing + 1), NoMessage), Leg(m.(noSession := m.noSession + 1), NoMessage)]
    case AbandonSubscribe => [Leg(m.(noSession := m.noSession + 1), NoMessage)]
    case RouteMessage => [Leg(m, Routed), Leg(m, Lettered)]
    case LogDeadLetter => [Free(m)]
    case OnSubscribed =>
      [Free(m.(subscribedSession := m.subscribedSession + 1, liveSession := m.liveSession + 1, uiState := m.uiState + 1)),
       Free(m.(subscribedSession := m.subscribedSession + 1, replaySession := m.replaySession + 1,
               replayPaused := m.replayPaused + 1, uiState := m.uiState + 1)),
       Leg(m.(noSession := m.noSession + 1), Lettered)]
    case DropSubscribed => [Leg(m, Lettered)]
    case OnSessionList => [Free(m), Leg(m, Lettered)]
    case OnSessionListDeepLink =>
      [Free(m.(userSelectSession := m.userSelectSession + 1)), Free(m), Leg(m, Lettered)]
    case OnMessage(_) => [Free(m), Leg(m, Lettered)]
    case OnEvent => SessionLegs(m)
    case OnEventBatch => SessionLegs(m)
    case OnReplayEventBatch => SessionLegs(m)
    case OnMarkingSnapshot => SessionLegs(m)
    case DropWithoutSession(_) => [Leg(m, Lettered)]
    case OnBreakpointList =>
      [Free(m.(breakpoints := m.breakpoints + 1)), Leg(m.(breakpoints := m.breakpoints + 1), Lettered)]
    case OnArchiveImported => [Free(m.(userSelectSession := m.userSelectSession + 1)), Leg(m, Lettered)]
    case ReplayPlay => [Leg(m.(replayPlaying := m.replayPlaying + 1, autoStepTick := m.autoStepTick + 1), NoMessage)]
    case ReplayPlayFromBreakpoint =>
      [Leg(m.(replayPlaying := m.replayPlaying + 1, autoStepTick := m.autoStepTick + 1), NoMessage)]
    case ReplayAutoStep =>
      [Leg(m.(uiState := m.uiState + 1, replayPlaying := m.replayPlaying + 1), NoMessage),
       Leg(m.(uiState := m.uiState + 1, replayPaused := m.replayPaused + 1), NoMessage),
       Leg(m.(uiState := m.uiState + 1, breakpointPaused := m.breakpointPaused + 1), NoMessage)]
    case ReplayPause => [Leg(m.(replayPaused := m.replayPaused + 1), NoMessage)]
    case DropStaleTick => [Leg(m, NoMessage)]
    case ReplayCommand => [Leg(m.(uiState := m.uiState + 1), NoMessage)]
    case EditBreakpoints => [Leg(m.(breakpoints := m.breakpoints + 1), NoMessage)]
  }

  /** A handler that folds its message into `uiState` gives the token back either way. */
  function SessionLegs(m: Marking): seq<Leg> {
    [Free(m.(uiState := m.uiState + 1)), Leg(m.(uiState := m.uiState + 1), Lettered)]
  }

  // ----- states and steps ------------------------------------------------------------

  /** An action that has taken its inputs, with the message among them if it routes one. */
  datatype Flight = Flight(t: Transition, held: seq<Message>)

  /**
   `waiting`, `routed` and `letters` are the messages on `wsMessage`, on the places of their
   types, and on `deadLetter`. `arrived` and `done` record the run: every message that came, and
   every message whose handling gave the permit back.
   */
  datatype State = State(
    marking: Marking, waiting: seq<Message>, routed: seq<Message>, letters: seq<Message>,
    flights: seq<Flight>, arrived: seq<Message>, done: seq<Message>)

  const INITIAL: State :=
    State(Marking(1, 0, 0, 0, 1, 0, 0, 0, 0, 0, 0, 0, 0, 0, 1, 1, 0, 0), [], [], [], [], [], [])

  predicate InFlight(t: Transition, s: State) {
    exists i :: 0 <= i < |s.flights| && s.flights[i].t == t
  }

  /** The executor never starts a transition whose action is still running. */
  predicate CanStart(t: Transition, s: State) {
    && InNet(t) && Enabled(t, s.marking) && !InFlight(t, s)
    && (t.RouteMessage? ==> s.waiting != [])
    && (t.LogDeadLetter? ==> s.letters != [])
    && (HandlesKind(t) ==> exists j :: 0 <= j < |s.routed| && Takes(t, s.routed[j]))
  }

  /** A message of the type `t` handles. */
  predicate Takes(t: Transition, msg: Message)
    requires HandlesKind(t)
  {
    msg.Known? && msg.kind == KindOf(t)
  }

  datatype Action =
    | Start(t: Transition, j: nat)
    | Complete(i: nat, leg: nat)
    | Arrive(msg: Message)
    | Deliver(selections: nat, ticks: nat, links: nat)

  function RemoveAt<X>(xs: seq<X>, i: nat): (r: seq<X>)
    requires i < |xs|
    ensures |r| == |xs| - 1
  {
    xs[..i] + xs[i + 1..]
  }

  /** Removing the last element, or one before it. */
  lemma RemoveAtLast<X>(xs: seq<X>, i: nat)
    requires i < |xs|
    ensures i == |xs| - 1 ==> RemoveAt(xs, i) == xs[..|xs| - 1]
    ensures i < |xs| - 1 ==> RemoveAt(xs, i) == RemoveAt(xs[..|xs| - 1], i) + [xs[|xs| - 1]]
  {
  }

  /** `t` takes its inputs; a handler takes the routed message at `j`, which is of its type. */
  ghost predicate Starts(s: State, t: Transition, j: nat, s': State) {
    && CanStart(t, s)
    && var m := Consume(t, s.marking);
       if t.RouteMessage? then
         s' == s.(marking := m, waiting := s.waiting[1..], flights := s.flights + [Flight(t, [s.waiting[0]])])
       else if t.LogDeadLetter? then
         s' == s.(marking := m, letters := s.letters[1..], flights := s.flights + [Flight(t, [s.letters[0]])])
       else if HandlesKind(t) then
         j < |s.routed| && Takes(t, s.routed[j]) &&
         s' == s.(marking := m, routed := RemoveAt(s.routed, j), flights := s.flights + [Flight(t, [s.routed[j]])])
       else
         s' == s.(marking := m, flights := s.flights + [Flight(t, [])])
  }

  /** The action of flight `i` writes leg `leg`; the router's legs follow from the message's type. */
  ghost predicate Completes(s: State, i: nat, leg: nat, s': State) {
    && i < |s.flights|
    && var f := s.flights[i];
       var legs := Legs(f.t, s.marking);
       && leg < |legs|
       && (f.t.RouteMessage? ==> |f.held| == 1 && (legs[leg].ending.Routed? <==> f.held[0].Known?))
       && var after := s.(marking := legs[leg].marking, flights := RemoveAt(s.flights, i));
          match legs[leg].ending
          case NoMessage => s' == after
          case Handled => s' == after.(done := s.done + f.held)
          case Lettered => s' == after.(letters := s.letters + f.held)
          case Routed => s' == after.(routed := s.routed + f.held)
  }

  ghost predicate Next(s: State, a: Action, s': State) {
    match a
    case Start(t, j) => Starts(s, t, j, s')
    case Complete(i, leg) => Completes(s, i, leg, s')
    case Arrive(msg) => s' == s.(waiting := s.waiting + [msg], arrived := s.arrived + [msg])
    case Deliver(selections, ticks, links) =>
      s' == s.(marking := s.marking.(userSelectSession := s.marking.userSelectSession + selections,
                                     autoStepTick := s.marking.autoStepTick + ticks,
                                     deepLink := s.marking.deepLink + links))
  }

  ghost predicate NextAt(ss: seq<State>, acts: seq<Action>, i: nat)
    requires i < |acts| && |ss| == |acts| + 1
  {
    Next(ss[i], acts[i], ss[i + 1])
  }

  /** A run of the net: the states passed through, and the actions between them. */
  ghost predicate IsRun(ss: seq<State>, acts: seq<Action>) {
    |ss| == |acts| + 1 && ss[0] == INITIAL && forall i: nat :: i < |acts| ==> NextAt(ss, acts, i)
  }

  ghost predicate Reachable(s: State) {
    exists ss, acts :: IsRun(ss, acts) && ss[|acts|] == s
  }
}
