/**
 * The part of the engine's dispatch contract that the suspense table needs:
 * child-first lookup with fallback to the parent state, a silent no-op when
 * nothing matches, the extended-state merge, and the synthetic INIT_EVENT
 * dispatched on entry into a compound state.
 */
module Engine {
  import opened Wrappers
  import opened Values
  import ExtendedState
  import Commands
  import Actions
  import opened Topology

  /** Where the machine is after an event, and the commands it emitted for it. */
  datatype Reaction = Reaction(control: State, extended: ExtendedState.State, outputs: seq<Commands.Command>)

  /** The transition that handles `event` in `s`: one declared on `s`, else one declared on its parent. */
  function Resolve(s: State, event: Event): (r: Option<Transition>)
    ensures r.Some? ==> r.value in Transitions && r.value.event == event
    ensures r.Some? && r.value.from != s ==>
      Parent(s) == Some(r.value.from) && forall t :: t in Transitions ==> !Matches(t, s, event)
    ensures r.Some? ==> r.value.from == s || Parent(s) == Some(r.value.from)
    ensures r.None? ==> forall t :: t in Transitions ==> !Matches(t, s, event)
    ensures r.None? && Parent(s).Some? ==> forall t :: t in Transitions ==> !Matches(t, Parent(s).value, event)
  {
    match Declared(s, event)
    case Some(t) => Some(t)
    case None =>
      match Parent(s)
      case Some(p) => Declared(p, event)
      case None => None
  }

  /** Take transition `t`: run its action, merge its updates, move to its target. */
  function Fire(t: Transition, extended: ExtendedState.State, eventData: Value, settings: Commands.Settings): (r: Reaction)
    ensures r.control == t.to
    ensures |r.outputs| <= 1
  {
    var result := Perform(t.action, extended, eventData, settings);
    Reaction(t.to, ExtendedState.Merged(extended, result.updates), result.outputs)
  }

  /**
   * After landing on a compound state, dispatch INIT_EVENT there so that the
   * machine rests on a leaf; the outputs of both actions are concatenated.
   * The INIT_EVENT carries no data (the one action it triggers reads none).
   */
  function Settle(r: Reaction, settings: Commands.Settings): (settled: Reaction)
    ensures IsLeaf(r.control) ==> settled == r
    ensures !IsLeaf(r.control) ==> IsLeaf(settled.control) && settled.control in SubStates(r.control)
    ensures |r.outputs| <= |settled.outputs| <= |r.outputs| + 1
    ensures settled.outputs[..|r.outputs|] == r.outputs
  {
    if IsLeaf(r.control) then r
    else
      match Resolve(r.control, InitEvent)
      case None => r
      case Some(t) =>
        var entered := Fire(t, r.extended, Undefined, settings);
        Reaction(entered.control, entered.extended, r.outputs + entered.outputs)
  }

  /**
   * Entering SUSPENSE takes its INIT_EVENT transition: the machine rests on
   * PENDING and startTimer's START_TIMER follows the outputs already emitted.
   */
  lemma SettleEntersPending(r: Reaction, settings: Commands.Settings)
    requires r.control == Suspense
    ensures Settle(r, settings) ==
      Reaction(Pending, r.extended, r.outputs + [Commands.StartTimer(Actions.TimerDuration(settings))])
  {
    assert Declared(Suspense, InitEvent) == Some(Transitions[1]);
  }

  /** Process one event delivered by the driver, to completion. */
  function Dispatch(control: State, extended: ExtendedState.State, event: ExternalEvent, eventData: Value,
                    settings: Commands.Settings): (r: Reaction)
    ensures Resolve(control, event).None? ==> r == Reaction(control, extended, [])
    ensures |r.outputs| <= 2
  {
    match Resolve(control, event)
    case None => Reaction(control, extended, [])
    case Some(t) => Settle(Fire(t, extended, eventData, settings), settings)
  }

  /** Process a sequence of events, one at a time, collecting every output in order. */
  function Run(control: State, extended: ExtendedState.State, events: seq<(ExternalEvent, Value)>,
               settings: Commands.Settings): (r: Reaction)
    ensures events == [] ==> r == Reaction(control, extended, [])
    ensures |r.outputs| <= 2 * |events|
    decreases |events|
  {
    if events == [] then Reaction(control, extended, [])
    else
      var first := Dispatch(control, extended, events[0].0, events[0].1, settings);
      var rest := Run(first.control, first.extended, events[1..], settings);
      Reaction(rest.control, rest.extended, first.outputs + rest.outputs)
  }

  /** A run that starts with `event` is that event's reaction followed by the run of the rest. */
  lemma RunFirst(control: State, extended: ExtendedState.State, event: ExternalEvent, eventData: Value,
                 rest: seq<(ExternalEvent, Value)>, settings: Commands.Settings)
    ensures var first := Dispatch(control, extended, event, eventData, settings);
            var later := Run(first.control, first.extended, rest, settings);
            Run(control, extended, [(event, eventData)] + rest, settings)
              == Reaction(later.control, later.extended, first.outputs + later.outputs)
  {
    assert ([(event, eventData)] + rest)[1..] == rest;
  }

  /** Concatenating three output lists does not depend on the grouping. */
  lemma OutputsAssociate(x: seq<Commands.Command>, y: seq<Commands.Command>, z: seq<Commands.Command>)
    ensures x + (y + z) == (x + y) + z
  {
  }

  /** A non-empty event sequence is its first event followed by the rest, also when `vs` is appended. */
  lemma SplitHead(us: seq<(ExternalEvent, Value)>, vs: seq<(ExternalEvent, Value)>)
    requires us != []
    ensures us == [(us[0].0, us[0].1)] + us[1..]
    ensures us + vs == [(us[0].0, us[0].1)] + (us[1..] + vs)
  {
    assert us + vs == [us[0]] + (us[1..] + vs);
  }

  /**
   * Running `us` and then `vs` is running `us + vs`: the second run starts
   * where the first one left the machine, and the outputs are concatenated.
   */
  lemma {:induction false} RunConcat(control: State, extended: ExtendedState.State,
                                     us: seq<(ExternalEvent, Value)>, vs: seq<(ExternalEvent, Value)>,
                                     settings: Commands.Settings)
    ensures var a := Run(control, extended, us, settings);
            var b := Run(a.control, a.extended, vs, settings);
            Run(control, extended, us + vs, settings) == Reaction(b.control, b.extended, a.outputs + b.outputs)
    decreases |us|
  {
    if us == [] {
      assert us + vs == vs;
    } else {
      var first := Dispatch(control, extended, us[0].0, us[0].1, settings);
      var a' := Run(first.control, first.extended, us[1..], settings);
      var b := Run(a'.control, a'.extended, vs, settings);
      RunConcat(first.control, first.extended, us[1..], vs, settings);
      RunFirst(control, extended, us[0].0, us[0].1, us[1..], settings);
      RunFirst(control, extended, us[0].0, us[0].1, us[1..] + vs, settings);
      SplitHead(us, vs);
      OutputsAssociate(first.outputs, a'.outputs, b.outputs);
    }
  }

  /** DONE and ERROR: states no transition leaves. */
  predicate IsTerminal(s: State)
  {
    s == Done || s == Error
  }

  /** How far along the lifecycle a state is; the machine never moves back. */
  function Progress(s: State): (rank: nat)
  {
    match s
    case Off => 0
    case Suspense => 1
    case Pending => 1
    case Spinning => 2
    case Done => 3
    case Error => 3
  }

  /** An event that no transition handles in the current state is dropped: nothing changes, nothing is emitted. */
  lemma UnhandledIsNoOp(control: State, extended: ExtendedState.State, event: ExternalEvent, eventData: Value,
                        settings: Commands.Settings)
    requires forall t :: t in Transitions ==> !Matches(t, control, event)
    requires Parent(control).Some? ==> forall t :: t in Transitions ==> !Matches(t, Parent(control).value, event)
    ensures Dispatch(control, extended, event, eventData, settings) == Reaction(control, extended, [])
  {
  }

  /** TIMER_EXPIRED is dropped in SPINNING, DONE and ERROR: a stale timer cannot move the machine. */
  lemma StaleTimerIsNoOp(control: State, extended: ExtendedState.State, eventData: Value, settings: Commands.Settings)
    requires control == Spinning || IsTerminal(control)
    ensures Dispatch(control, extended, TimerExpired, eventData, settings) == Reaction(control, extended, [])
  {
    TableShape();
    UnhandledIsNoOp(control, extended, TimerExpired, eventData, settings);
  }

  /** DONE and ERROR are absorbing: every event there is a no-op. */
  lemma TerminalIsAbsorbing(control: State, extended: ExtendedState.State, event: ExternalEvent, eventData: Value,
                            settings: Commands.Settings)
    requires IsTerminal(control)
    ensures Dispatch(control, extended, event, eventData, settings) == Reaction(control, extended, [])
  {
    TableShape();
    UnhandledIsNoOp(control, extended, event, eventData, settings);
  }

  /** From DONE or ERROR, any sequence of events leaves the machine where it is and emits nothing. */
  lemma {:induction false} RunFromTerminal(control: State, extended: ExtendedState.State,
                                           events: seq<(ExternalEvent, Value)>, settings: Commands.Settings)
    requires IsTerminal(control)
    ensures Run(control, extended, events, settings) == Reaction(control, extended, [])
    decreases |events|
  {
    if events != [] {
      TerminalIsAbsorbing(control, extended, events[0].0, events[0].1, settings);
      RunFromTerminal(control, extended, events[1..], settings);
    }
  }

  /** Taking a transition of the table leaves the extended state as it was. */
  lemma FireKeepsExtendedState(t: Transition, extended: ExtendedState.State, eventData: Value,
                               settings: Commands.Settings)
    ensures Fire(t, extended, eventData, settings).extended == extended
  {
    ExtendedState.MergedNoUpdates(extended);
  }

  /** No action of the table produces updates, so an event never changes the extended state. */
  lemma DispatchKeepsExtendedState(control: State, extended: ExtendedState.State, event: ExternalEvent,
                                   eventData: Value, settings: Commands.Settings)
    ensures Dispatch(control, extended, event, eventData, settings).extended == extended
  {
    match Resolve(control, event)
    case None =>
    case Some(t) =>
      var fired := Fire(t, extended, eventData, settings);
      FireKeepsExtendedState(t, extended, eventData, settings);
      match Resolve(fired.control, InitEvent)
      case None =>
      case Some(entry) =>
        FireKeepsExtendedState(entry, extended, Undefined, settings);
  }

  /** Hence the extended state a run ends with is the one it started with. */
  lemma {:induction false} RunKeepsExtendedState(control: State, extended: ExtendedState.State,
                                                 events: seq<(ExternalEvent, Value)>, settings: Commands.Settings)
    ensures Run(control, extended, events, settings).extended == extended
    decreases |events|
  {
    if events != [] {
      var first := Dispatch(control, extended, events[0].0, events[0].1, settings);
      DispatchKeepsExtendedState(control, extended, events[0].0, events[0].1, settings);
      RunKeepsExtendedState(first.control, first.extended, events[1..], settings);
    }
  }

  /** An event processed from a leaf leaves the machine on a leaf, never on SUSPENSE itself. */
  lemma DispatchEndsOnLeaf(control: State, extended: ExtendedState.State, event: ExternalEvent, eventData: Value,
                           settings: Commands.Settings)
    requires IsLeaf(control)
    ensures IsLeaf(Dispatch(control, extended, event, eventData, settings).control)
  {
  }

  /** The machine never moves back along the lifecycle, and never returns to OFF once it has left. */
  lemma DispatchProgresses(control: State, extended: ExtendedState.State, event: ExternalEvent, eventData: Value,
                           settings: Commands.Settings)
    requires IsLeaf(control)
    ensures Progress(Dispatch(control, extended, event, eventData, settings).control) >= Progress(control)
    ensures control != Off ==> Dispatch(control, extended, event, eventData, settings).control != Off
  {
  }

  /** Over any run from a leaf the machine rests on a leaf and has not moved back. */
  lemma {:induction false} RunEndsOnLeaf(control: State, extended: ExtendedState.State,
                                         events: seq<(ExternalEvent, Value)>, settings: Commands.Settings)
    requires IsLeaf(control)
    ensures IsLeaf(Run(control, extended, events, settings).control)
    ensures Progress(Run(control, extended, events, settings).control) >= Progress(control)
    decreases |events|
  {
    if events != [] {
      var first := Dispatch(control, extended, events[0].0, events[0].1, settings);
      DispatchEndsOnLeaf(control, extended, events[0].0, events[0].1, settings);
      DispatchProgresses(control, extended, events[0].0, events[0].1, settings);
      RunEndsOnLeaf(first.control, first.extended, events[1..], settings);
    }
  }

  /**
   * START from OFF: RUN(task) if there is a task, then START_TIMER, ending
   * in PENDING with the extended state unchanged.
   */
  lemma StartFromOff(extended: ExtendedState.State, eventData: Value, settings: Commands.Settings)
    ensures Dispatch(Off, extended, Start, eventData, settings) ==
      Reaction(Pending, extended,
               (if Commands.HasTask(settings) then [Commands.Run(settings.task.value)] else [])
               + [Commands.StartTimer(Actions.TimerDuration(settings))])
  {
  }

  /** Only START moves the machine out of OFF. */
  lemma OffWaitsForStart(extended: ExtendedState.State, event: ExternalEvent, eventData: Value,
                         settings: Commands.Settings)
    requires event != Start
    ensures Dispatch(Off, extended, event, eventData, settings) == Reaction(Off, extended, [])
  {
  }

  /** TIMER_EXPIRED in PENDING shows the fallback and moves to SPINNING. */
  lemma TimerExpiredInPending(extended: ExtendedState.State, eventData: Value, settings: Commands.Settings)
    ensures Dispatch(Pending, extended, TimerExpired, eventData, settings) ==
      Reaction(Spinning, extended, [Commands.Render(Commands.Fallback, None)])
  {
  }

  /** In PENDING or SPINNING, SUCCEEDED and FAILED are handled by the entries declared on SUSPENSE. */
  lemma SuspenseHandlesOutcome(control: State, event: Event)
    requires control == Pending || control == Spinning
    requires event == Succeeded || event == Failed
    ensures Resolve(control, event) == Some(if event == Succeeded then Transitions[3] else Transitions[4])
  {
    assert Declared(control, event).None?;
  }

  /** In PENDING or SPINNING, SUCCEEDED or FAILED fires the SUSPENSE entry for it and renders the event data. */
  lemma OutcomeFires(control: State, extended: ExtendedState.State, event: Event, eventData: Value,
                     settings: Commands.Settings)
    requires control == Pending || control == Spinning
    requires event == Succeeded || event == Failed
    ensures Dispatch(control, extended, event, eventData, settings) ==
      if event == Succeeded then Reaction(Done, extended, [Commands.Render(Commands.Main, Some(eventData))])
      else Reaction(Error, extended, [Commands.Render(Commands.Err, Some(eventData))])
  {
    var t := if event == Succeeded then Transitions[3] else Transitions[4];
    SuspenseHandlesOutcome(control, event);
    FireKeepsExtendedState(t, extended, eventData, settings);
  }

  /**
   * SUCCEEDED and FAILED are declared on SUSPENSE, so they act the same in
   * PENDING and in SPINNING: one RENDER carrying the event data, then DONE or ERROR.
   */
  lemma OutcomeIgnoresSubState(control: State, extended: ExtendedState.State, eventData: Value,
                               settings: Commands.Settings)
    requires control == Pending || control == Spinning
    ensures Dispatch(control, extended, Succeeded, eventData, settings) ==
      Reaction(Done, extended, [Commands.Render(Commands.Main, Some(eventData))])
    ensures Dispatch(control, extended, Failed, eventData, settings) ==
      Reaction(Error, extended, [Commands.Render(Commands.Err, Some(eventData))])
  {
    OutcomeFires(control, extended, Succeeded, eventData, settings);
    OutcomeFires(control, extended, Failed, eventData, settings);
  }
}
