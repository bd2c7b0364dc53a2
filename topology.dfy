/**
 * The state topology and the transition table of the suspense machine
 * (src/svelte-suspense-fsm.js:10-22, 39-56), as data.
 */
module Topology {
  import opened Wrappers
  import opened Values
  import ExtendedState
  import Commands
  import Actions

  /** Control states. SUSPENSE is compound; PENDING and SPINNING are its sub-states. */
  datatype State = Off | Suspense | Pending | Spinning | Error | Done

  /**
   * Event names. InitEvent is the engine's reserved INIT_EVENT, kept opaque:
   * the engine dispatches it on entry into a compound state.
   */
  datatype Event = Start | TimerExpired | Succeeded | Failed | InitEvent

  /** The events a driver may deliver (the exported `events` list). */
  type ExternalEvent = e: Event | e != InitEvent witness Start

  /** The actions a transition may name. */
  datatype Action = RunOperation | StartTimer | RenderFallback | RenderSucceeded | RenderError

  datatype Transition = Transition(from: State, event: Event, to: State, action: Action)

  /** The string under which the source declares each state. */
  function Moniker(s: State): (name: string)
  {
    match s
    case Off => "OFF"
    case Suspense => "SUSPENSE"
    case Pending => "PENDING"
    case Spinning => "SPINNING"
    case Error => "ERROR"
    case Done => "DONE"
  }

  /** Distinct states have distinct monikers, so the `states` object has one key per state. */
  lemma MonikersDistinct(s: State, t: State)
    ensures Moniker(s) == Moniker(t) ==> s == t
  {
  }

  /** The `states` hierarchy: the sub-states each state declares, in order. */
  function SubStates(s: State): (subs: seq<State>)
    ensures forall c :: c in subs ==> c == Pending || c == Spinning
    ensures subs != [] <==> s == Suspense
    ensures s == Suspense ==> Pending in subs && Spinning in subs
  {
    if s == Suspense then [Pending, Spinning] else []
  }

  /** SUSPENSE is the only compound state. */
  predicate IsLeaf(s: State)
    ensures IsLeaf(s) <==> s != Suspense
  {
    SubStates(s) == []
  }

  /** The state whose sub-states include `s`, if any (the hierarchy has depth two). */
  function Parent(s: State): (p: Option<State>)
    ensures p.Some? <==> exists q :: s in SubStates(q)
    ensures p.Some? ==> s in SubStates(p.value) && IsLeaf(s)
  {
    if s in SubStates(Suspense) then Some(Suspense) else None
  }

  const InitialControlState: State := Off

  const InitialExtendedState: ExtendedState.State := map[]

  /** The transition table, in declaration order. */
  const Transitions: seq<Transition> := [
    Transition(Off, Start, Suspense, RunOperation),
    Transition(Suspense, InitEvent, Pending, StartTimer),
    Transition(Pending, TimerExpired, Spinning, RenderFallback),
    Transition(Suspense, Succeeded, Done, RenderSucceeded),
    Transition(Suspense, Failed, Error, RenderError)
  ]

  predicate Matches(t: Transition, from: State, event: Event)
  {
    t.from == from && t.event == event
  }

  /** The index of the first entry of `table` at or after `i` declared on (from, event). */
  function FindFrom(table: seq<Transition>, from: State, event: Event, i: nat): (r: Option<nat>)
    requires i <= |table|
    ensures r.Some? ==> i <= r.value < |table| && Matches(table[r.value], from, event)
    ensures r.Some? ==> forall j :: i <= j < r.value ==> !Matches(table[j], from, event)
    ensures r.None? ==> forall j :: i <= j < |table| ==> !Matches(table[j], from, event)
    decreases |table| - i
  {
    if i == |table| then None
    else if Matches(table[i], from, event) then Some(i)
    else FindFrom(table, from, event, i + 1)
  }

  /** The entry of the table declared on (from, event), if there is one. */
  function Declared(from: State, event: Event): (r: Option<Transition>)
    ensures r.Some? ==> r.value in Transitions && Matches(r.value, from, event)
    ensures r.None? ==> forall t :: t in Transitions ==> !Matches(t, from, event)
  {
    match FindFrom(Transitions, from, event, 0)
    case Some(i) => Some(Transitions[i])
    case None => None
  }

  /** No two entries of the table share a (from, event) pair. */
  lemma TableDeterministic()
    ensures forall i, j :: 0 <= i < j < |Transitions| ==>
      !Matches(Transitions[j], Transitions[i].from, Transitions[i].event)
  {
  }

  /**
   * The table agrees with the hierarchy: the compound state has an
   * INIT_EVENT entry, and every INIT_EVENT entry leads from a compound state
   * into one of its own sub-states.
   */
  lemma TableFitsHierarchy()
    ensures forall s :: !IsLeaf(s) ==> exists t :: t in Transitions && Matches(t, s, InitEvent)
    ensures forall t :: t in Transitions && t.event == InitEvent ==> !IsLeaf(t.from) && t.to in SubStates(t.from)
  {
    assert Matches(Transitions[1], Suspense, InitEvent);
  }

  /** Whatever entry is declared on (from, event) is the one `Declared` returns. */
  lemma DeclaredIsUnique(t: Transition)
    requires t in Transitions
    ensures Declared(t.from, t.event) == Some(t)
  {
    TableDeterministic();
  }

  /** The table never targets OFF, and TIMER_EXPIRED is declared only from PENDING. */
  lemma TableShape()
    ensures forall t :: t in Transitions ==> t.to != Off
    ensures forall t :: t in Transitions && t.event == TimerExpired ==> t.from == Pending
    ensures forall t :: t in Transitions ==> t.from != Done && t.from != Error
  {
  }

  /** The action a transition names, as a function of its inputs. */
  function Perform(a: Action, extendedState: ExtendedState.State, eventData: Value, settings: Commands.Settings): (r: Actions.ActionResult)
    ensures r.updates == []
    ensures |r.outputs| <= 1
  {
    match a
    case RunOperation => Actions.RunOperation(extendedState, eventData, settings)
    case StartTimer => Actions.StartTimer(extendedState, eventData, settings)
    case RenderFallback => Actions.RenderFallback(extendedState, eventData, settings)
    case RenderSucceeded => Actions.RenderSucceeded(extendedState, eventData, settings)
    case RenderError => Actions.RenderError(extendedState, eventData, settings)
  }

  /** No action reads the extended state: its result is the same whatever that state is. */
  lemma PerformIgnoresExtendedState(a: Action, s1: ExtendedState.State, s2: ExtendedState.State, eventData: Value, settings: Commands.Settings)
    ensures Perform(a, s1, eventData, settings) == Perform(a, s2, eventData, settings)
  {
  }
}
