/**
 Replay in the debug UI: the buffer a batch is appended to and undone from in place, and what
 playing on from breakpoint to breakpoint does to the state.
 */
module Playback {
  import opened Wrappers

  /** The state a replay step moves: what the panels show, where it is, and the breakpoint it stopped at. */
  datatype UiState<S> = UiState(shown: S, eventIndex: nat, totalEvents: nat, breakpointHitIndex: Option<nat>)

  // ----- the replay buffer -----------------------------------------------------------

  /** `shared.replay`: kept outside the net and appended to in place. */
  class ReplayBuffer<Event, Checkpoint> {
    var allEvents: seq<Event>
    var checkpoints: seq<Checkpoint>

    constructor ()
      ensures allEvents == [] && checkpoints == []
    {
      allEvents, checkpoints := [], [];
    }

    /** `undo`: cut the events back and restore the checkpoints. */
    method Undo(previousLength: nat, previousCheckpoints: seq<Checkpoint>)
      requires previousLength <= |allEvents|
      modifies this
      ensures allEvents == old(allEvents)[..previousLength] && checkpoints == previousCheckpoints
    {
      allEvents := allEvents[..previousLength];
      checkpoints := previousCheckpoints;
    }

    /**
     `t_on_replay_event_batch`: the batch is pushed event by event, the checkpoints are rebuilt
     from where it begins, and the timeline is moved. `batch` is missing if the message holds
     nothing to iterate over; `build` has no result, and `moveTimeline` is false, where they throw.
     Wherever it fails, the buffer, the checkpoints and the state are what they were before.
     */
    method OnBatch<S>(
      state: UiState<S>, batch: Option<seq<Event>>, build: (seq<Event>, nat) -> Option<seq<Checkpoint>>,
      moveTimeline: (nat, nat) -> bool)
      returns (next: UiState<S>, handled: bool)
      modifies this
      ensures handled <==>
        && batch.Some?
        && build(old(allEvents) + batch.value, |old(allEvents)|).Some?
        && moveTimeline(state.eventIndex, |old(allEvents)| + |batch.value|)
      ensures handled ==> allEvents == old(allEvents) + batch.value
      ensures handled ==> build(allEvents, |old(allEvents)|) == Some(checkpoints)
      ensures handled ==> next == state.(totalEvents := |allEvents|)
      ensures !handled ==> allEvents == old(allEvents) && checkpoints == old(checkpoints) && next == state
    {
      var previousLength, previousCheckpoints := |allEvents|, checkpoints;
      if batch.None? {
        Undo(previousLength, previousCheckpoints);
        return state, false;
      }
      var events := batch.value;
      for i := 0 to |events|
        invariant allEvents == old(allEvents) + events[..i] && checkpoints == old(checkpoints)
      {
        allEvents := allEvents + [events[i]];
        assert events[..i + 1] == events[..i] + [events[i]];
      }
      assert events[..|events|] == events;
      var rebuilt := build(allEvents, previousLength);
      if rebuilt.None? {
        Undo(previousLength, previousCheckpoints);
        return state, false;
      }
      checkpoints := rebuilt.value;
      next := state.(totalEvents := |allEvents|);
      if !moveTimeline(next.eventIndex, next.totalEvents) {
        Undo(previousLength, previousCheckpoints);
        return state, false;
      }
      handled := true;
    }
  }

  // ----- playing ---------------------------------------------------------------------

  datatype Leg = Step | End | AtBreakpoint

  /** The replay under way: its events, which of them match a breakpoint, and how one is shown. */
  datatype Replay<!S, !Event> = Replay(events: seq<Event>, matches: Event -> bool, apply: (S, Event) -> S)

  /** The decision of `t_replay_auto_step`; a breakpoint stops before its event, once. */
  function AutoStep<S, Event>(r: Replay<S, Event>, s: UiState<S>): (Leg, UiState<S>) {
    if s.eventIndex >= |r.events| then (End, s)
    else
      var event := r.events[s.eventIndex];
      if s.breakpointHitIndex != Some(s.eventIndex) && r.matches(event) then
        (AtBreakpoint, s.(breakpointHitIndex := Some(s.eventIndex)))
      else
        (Step, UiState(r.apply(s.shown, event), s.eventIndex + 1, |r.events|, None))
  }

  /** What an auto-step did, and at which event. */
  datatype Mark = Stepped(i: nat) | Stopped(i: nat) | Ended

  function MarkOf(leg: Leg, i: nat): Mark {
    match leg case Step => Stepped(i) case End => Ended case AtBreakpoint => Stopped(i)
  }

  /** The auto-steps from `s` to the end, when play is pressed again at every breakpoint. */
  function Marks<S, Event>(r: Replay<S, Event>, s: UiState<S>): seq<Mark>
    decreases |r.events| - s.eventIndex, if s.breakpointHitIndex == Some(s.eventIndex) then 0 else 1
  {
    var (leg, s') := AutoStep(r, s);
    [MarkOf(leg, s.eventIndex)] + if leg.End? then [] else Marks(r, s')
  }

  /** The state those auto-steps end in. */
  function Final<S, Event>(r: Replay<S, Event>, s: UiState<S>): UiState<S>
    decreases |r.events| - s.eventIndex, if s.breakpointHitIndex == Some(s.eventIndex) then 0 else 1
  {
    var (leg, s') := AutoStep(r, s);
    if leg.End? then s else Final(r, s')
  }

  /** All the remaining events shown, one after the other. */
  function ShowAll<S, Event>(r: Replay<S, Event>, shown: S, events: seq<Event>): S {
    if events == [] then shown else ShowAll(r, r.apply(shown, events[0]), events[1..])
  }

  /** The breakpoints still ahead: matching events, but the one stopped at already. */
  ghost predicate Ahead<S, Event>(r: Replay<S, Event>, s: UiState<S>, i: nat) {
    s.eventIndex <= i < |r.events| && r.matches(r.events[i]) && s.breakpointHitIndex != Some(i)
  }

  ghost predicate Once(marks: seq<Mark>) {
    forall p, q :: 0 <= p < q < |marks| ==> marks[p] != marks[q]
  }

  /** Marks come in the order of their events, a stop before the step over the same event. */
  ghost predicate Ordered(marks: seq<Mark>, start: nat) {
    && (forall p :: 0 <= p < |marks| && !marks[p].Ended? ==> marks[p].i >= start)
    && (forall p, q :: 0 <= p < q < |marks| && !marks[p].Ended? && !marks[q].Ended? ==>
          marks[p].i < marks[q].i || (marks[p] == Stopped(marks[q].i) && marks[q].Stepped?))
  }

  /** A breakpoint is forgotten as soon as the state has moved past it. */
  ghost predicate Fresh<S>(s: UiState<S>) {
    s.breakpointHitIndex.Some? ==> s.breakpointHitIndex.value <= s.eventIndex
  }

  lemma {:induction false} StepsEveryEvent<S, Event>(r: Replay<S, Event>, s: UiState<S>, i: nat)
    ensures Stepped(i) in Marks(r, s) <==> s.eventIndex <= i < |r.events|
    decreases |r.events| - s.eventIndex, if s.breakpointHitIndex == Some(s.eventIndex) then 0 else 1
  {
    var (leg, s') := AutoStep(r, s);
    if leg != End {
      StepsEveryEvent(r, s', i);
    }
  }

  lemma {:induction false} StopsAtEveryBreakpoint<S, Event>(r: Replay<S, Event>, s: UiState<S>, i: nat)
    requires Fresh(s)
    ensures Stopped(i) in Marks(r, s) <==> Ahead(r, s, i)
    decreases |r.events| - s.eventIndex, if s.breakpointHitIndex == Some(s.eventIndex) then 0 else 1
  {
    var (leg, s') := AutoStep(r, s);
    if leg != End {
      StopsAtEveryBreakpoint(r, s', i);
      assert Ahead(r, s, i) <==> Ahead(r, s', i) || (leg.AtBreakpoint? && i == s.eventIndex);
    }
  }

  lemma {:induction false} MarksInOrder<S, Event>(r: Replay<S, Event>, s: UiState<S>)
    requires Fresh(s)
    ensures var marks := Marks(r, s); Once(marks) && Ordered(marks, s.eventIndex) && marks[|marks| - 1] == Ended
    ensures |Marks(r, s)| <= 1 + Budget(r, s)
    decreases |r.events| - s.eventIndex, if s.breakpointHitIndex == Some(s.eventIndex) then 0 else 1
  {
    var (leg, s') := AutoStep(r, s);
    if leg != End {
      MarksInOrder(r, s');
      var i, rest := s.eventIndex, Marks(r, s');
      StepsEveryEvent(r, s', i);
      StopsAtEveryBreakpoint(r, s', i);
      assert MarkOf(leg, i) !in rest;
      OneMoreMark(MarkOf(leg, i), rest, i, s'.eventIndex);
    }
  }

  /** Two auto-steps an event, one if playback is stopped before it already. */
  function Budget<S, Event>(r: Replay<S, Event>, s: UiState<S>): int {
    if s.eventIndex >= |r.events| then 0
    else 2 * (|r.events| - s.eventIndex) - if s.breakpointHitIndex == Some(s.eventIndex) then 1 else 0
  }

  lemma OneMoreMark(m: Mark, rest: seq<Mark>, start: nat, next: nat)
    requires Once(rest) && Ordered(rest, next) && m !in rest && !m.Ended? && m.i == start <= next && (m.Stepped? ==> start < next)
    ensures Once([m] + rest) && Ordered([m] + rest, start)
  {
  }

  /**
   Playing on to the end steps over every remaining event exactly once and in order, stops
   exactly once before each that matches a breakpoint, and needs at most two auto-steps an
   event and one to notice the end.
   */
  lemma PlaysThrough<S, Event>(r: Replay<S, Event>, s: UiState<S>)
    requires Fresh(s)
    ensures forall i: nat :: Stepped(i) in Marks(r, s) <==> s.eventIndex <= i < |r.events|
    ensures forall i: nat :: Stopped(i) in Marks(r, s) <==> Ahead(r, s, i)
    ensures Once(Marks(r, s)) && Ordered(Marks(r, s), s.eventIndex) && Marks(r, s)[|Marks(r, s)| - 1] == Ended
    ensures |Marks(r, s)| <= 1 + if s.eventIndex < |r.events| then 2 * (|r.events| - s.eventIndex) else 0
  {
    forall i: nat
      ensures Stepped(i) in Marks(r, s) <==> s.eventIndex <= i < |r.events|
      ensures Stopped(i) in Marks(r, s) <==> Ahead(r, s, i)
    {
      StepsEveryEvent(r, s, i);
      StopsAtEveryBreakpoint(r, s, i);
    }
    MarksInOrder(r, s);
  }

  /** What is shown in the end is every remaining event applied in order, however often playback stopped. */
  lemma {:induction false} StopsDoNotMatter<S, Event>(r: Replay<S, Event>, s: UiState<S>)
    requires s.eventIndex <= |r.events|
    ensures Final(r, s).shown == ShowAll(r, s.shown, r.events[s.eventIndex..])
    ensures Final(r, s).eventIndex == |r.events|
    ensures s.eventIndex < |r.events| ==> Final(r, s).totalEvents == |r.events| && Final(r, s).breakpointHitIndex == None
    decreases |r.events| - s.eventIndex, if s.breakpointHitIndex == Some(s.eventIndex) then 0 else 1
  {
    var (leg, s') := AutoStep(r, s);
    if leg != End {
      StopsDoNotMatter(r, s');
      assert r.events[s.eventIndex..][1..] == r.events[s.eventIndex + 1..];
    }
  }
}
