# Suspense state machine

A model of the declarative state machine in `src/svelte-suspense-fsm.js`,
which drives a "suspense" UI region. On START the machine asks its driver to
run the configured task, if there is a truthy one, and enters the compound
state SUSPENSE. The engine resolves it at once, through the INIT_EVENT
transition, to PENDING; that transition's action starts a fallback timer. If the timer expires while the machine is PENDING, it renders the
fallback and moves to SPINNING. SUCCEEDED or FAILED, declared on SUSPENSE
itself, render the main view or the error view with the event's data. They
end in DONE or ERROR, which are absorbing.

The model has these parts:

- `values.dfy`: plain JavaScript values (`Value`) and their truthiness.
- `extended_state.dfy`: the merge rule `updateState`. It is specified as a
  left fold of map override (`Merged`) and implemented by a loop method
  (`UpdateState`) that mirrors the source's `reduce` over a fresh copy.
- `actions.dfy`: the output commands (RENDER, RUN, START_TIMER), the
  settings object, and the five actions as pure functions.
- `topology.dfy`: the states, their hierarchy, the event names and the
  transition table as a sequence of records, with first-match lookup.
- `engine.dfy`: the small part of the engine's dispatch contract that the
  table needs. Lookup tries the current leaf first, then its parent. An
  unmatched event is a no-op. A transition that lands on SUSPENSE is
  followed at once by the reserved INIT_EVENT, and the outputs of both
  actions are concatenated. `Run` folds this over a sequence of events.
- `machine.dfy`: a machine instance as a class. Its `control` and
  `extended` fields are updated in place by `Step`.
- `scenarios.dfy`: whole lifecycles from a freshly built machine.

`Dispatch` and `Run` are functions. So the control-state trajectory and the
output sequence are fixed by the settings and the event sequence alone.
`Topology.TableDeterministic` shows that the table never offers two
transitions for one (state, event) pair.

Two details of the source are worth stating.

- The initial state's constant is named `INIT`, but its moniker is
  `"OFF"` (`src/svelte-suspense-fsm.js:11`), and the model calls the
  state `Off`.
- `timeout || 200` (`src/svelte-suspense-fsm.js:80`) replaces only a
  falsy timeout, so a negative timeout reaches START_TIMER unchanged
  (`Scenarios.StartWithNegativeTimeout`).

## Model

| member | source | states |
|---|---|---|
| `Values.Truthy` | src/svelte-suspense-fsm.js:62 | a value is falsy exactly when it is `undefined`, `null`, `false`, 0 or the empty string; every other value, objects included, is truthy |
| `ExtendedState.Merged` | src/svelte-suspense-fsm.js:33-35 | with no fragments the result is the prior state; the result keeps every prior key and every key some fragment sets. Its values are pinned down by `MergedKeys`, `MergedKeepsUntouched` and `MergedLastWriterWins` |
| `ExtendedState.UpdateState` | src/svelte-suspense-fsm.js:33-36 | the loop over a fresh copy of the extended state computes exactly the left fold `Merged` of the update fragments |
| `ExtendedState.MergedFirstFragmentFirst` | src/svelte-suspense-fsm.js:35 | the fold applies the first fragment first, then the rest onto the result, as `reduce` does |
| `ExtendedState.MergedConcat` | src/svelte-suspense-fsm.js:35 | merging `us ++ vs` equals merging `us`, then merging `vs` onto that result |
| `ExtendedState.MergedNoUpdates` | src/svelte-suspense-fsm.js:34-35 | an empty update list returns a state equal to the input |
| `ExtendedState.MergedKeys` | src/svelte-suspense-fsm.js:33-35 | a key is in the result if and only if it was in the prior state or some fragment sets it |
| `ExtendedState.MergedKeepsUntouched` | src/svelte-suspense-fsm.js:33-35 | a key that no fragment sets keeps its prior value, or stays absent |
| `ExtendedState.MergedLastWriterWins` | src/svelte-suspense-fsm.js:30-35 | the last fragment that sets a key decides its value, overriding earlier fragments and the prior state, and its value is taken whole |
| `ExtendedState.ShallowMergeExample` | src/svelte-suspense-fsm.js:30 | `{a, b: {c, d}}` merged with `[{b: {e}}]` is `{a, b: {e}}`: a nested object is replaced, not deep-merged |
| `Commands.HasTask` | src/svelte-suspense-fsm.js:60-62 | there is no task to run exactly when `settings.task` is absent, `undefined`, `null`, `false`, 0 or the empty string |
| `Actions.RunOperation` | src/svelte-suspense-fsm.js:59-71 | no updates; an output exists if and only if the task is present and truthy; that output is a single RUN carrying the task verbatim |
| `Actions.TimerDuration` | src/svelte-suspense-fsm.js:74-80 | the duration is never 0; it is 200 when the timeout is absent or 0, and the timeout itself otherwise |
| `Actions.StartTimer` | src/svelte-suspense-fsm.js:73-83 | no updates; exactly one START_TIMER command with that duration |
| `Actions.RenderFallback` | src/svelte-suspense-fsm.js:85-93 | no updates; exactly one RENDER with display FALLBACK and no `data` property |
| `Actions.RenderSucceeded` | src/svelte-suspense-fsm.js:95-103 | no updates; exactly one RENDER with display MAIN whose data is the event data, unchanged |
| `Actions.RenderError` | src/svelte-suspense-fsm.js:105-113 | no updates; exactly one RENDER with display ERR whose data is the event data, unchanged |
| `Topology.SubStates` | src/svelte-suspense-fsm.js:39-47 | only SUSPENSE has sub-states; it has PENDING and SPINNING, and no state has any other sub-state |
| `Topology.IsLeaf` | src/svelte-suspense-fsm.js:39-47 | every state except SUSPENSE is a leaf |
| `Topology.MonikersDistinct` | src/svelte-suspense-fsm.js:11-16 | distinct states have distinct monikers, so the `states` object has one key per state |
| `Topology.Parent` | src/svelte-suspense-fsm.js:39-47 | a state has a parent if and only if some state lists it as a sub-state; that parent lists it, and the state itself is a leaf (depth two) |
| `Topology.FindFrom` | src/svelte-suspense-fsm.js:50-56 | the lookup returns the first table entry declared on (state, event), and returns nothing only when no entry matches |
| `Topology.Declared` | src/svelte-suspense-fsm.js:50-56 | the returned transition belongs to the table and matches (state, event); nothing is returned only when no entry matches |
| `Topology.TableDeterministic` | src/svelte-suspense-fsm.js:50-56 | no two table entries share a (from, event) pair |
| `Topology.TableFitsHierarchy` | src/svelte-suspense-fsm.js:50-56 | the compound state declares an INIT_EVENT transition, and every INIT_EVENT transition is declared on a compound state and leads to one of its sub-states |
| `Topology.DeclaredIsUnique` | src/svelte-suspense-fsm.js:50-56 | each table entry is the transition found for its own (from, event) pair |
| `Topology.TableShape` | src/svelte-suspense-fsm.js:50-56 | no transition targets OFF, TIMER_EXPIRED is declared only from PENDING, and nothing is declared from DONE or ERROR |
| `Topology.Perform` | src/svelte-suspense-fsm.js:59-113 | no action of the table returns extended-state updates, and each emits at most one command |
| `Topology.PerformIgnoresExtendedState` | src/svelte-suspense-fsm.js:59-113 | an action's result is the same whatever the extended state is |
| `Engine.Resolve` | src/svelte-suspense-fsm.js:50-56 | the transition used is declared on the current state, or on its parent only when the current state declares nothing for the event; nothing is used only when neither declares the event |
| `Engine.Fire` | src/svelte-suspense-fsm.js:50-56 | taking a transition moves to its target and emits at most one command; `FireKeepsExtendedState` adds that the extended state is unchanged |
| `Engine.Settle` | src/svelte-suspense-fsm.js:52 | on a leaf nothing changes; on SUSPENSE the machine ends on one of its leaf sub-states, the outputs already emitted come first and at most one is appended. `SettleEntersPending` fixes which: PENDING, with START_TIMER appended |
| `Engine.SettleEntersPending` | src/svelte-suspense-fsm.js:52 | landing on SUSPENSE takes its INIT_EVENT transition: the machine rests on PENDING with the extended state unchanged, and `startTimer`'s START_TIMER with the configured or default duration follows the outputs already emitted |
| `Engine.Dispatch` | src/svelte-suspense-fsm.js:50-56 | an event no transition handles leaves the machine as it was and emits nothing; an event emits at most two commands. The rest of its behaviour is pinned down by `Resolve`, `DispatchEndsOnLeaf`, `DispatchProgresses`, `DispatchKeepsExtendedState` and the per-state lemmas below |
| `Engine.Run` | src/svelte-suspense-fsm.js:50-56 | no events leave the machine as it was and emit nothing; a run emits at most two commands per event. `RunConcat`, `RunEndsOnLeaf`, `RunKeepsExtendedState` and `RunFromTerminal` pin it down further |
| `Engine.SuspenseHandlesOutcome` | src/svelte-suspense-fsm.js:54-55 | in PENDING or SPINNING, SUCCEEDED and FAILED resolve to the entries declared on SUSPENSE |
| `Engine.RunConcat` | src/svelte-suspense-fsm.js:50-56 | running `us ++ vs` equals running `us`, then running `vs` from where that run left the machine, with the outputs of the two runs concatenated in order |
| `Engine.FireKeepsExtendedState` | src/svelte-suspense-fsm.js:33-36 | taking any transition of the table merges no updates, so the extended state is unchanged |
| `Engine.UnhandledIsNoOp` | src/svelte-suspense-fsm.js:50-56 | an event declared neither on the state nor on its parent leaves control and extended state unchanged and emits nothing |
| `Engine.StaleTimerIsNoOp` | src/svelte-suspense-fsm.js:53 | TIMER_EXPIRED in SPINNING, DONE or ERROR is a no-op |
| `Engine.TerminalIsAbsorbing` | src/svelte-suspense-fsm.js:50-56 | every event in DONE or ERROR is a no-op |
| `Engine.RunFromTerminal` | src/svelte-suspense-fsm.js:50-56 | from DONE or ERROR, any sequence of events leaves the machine where it is and emits nothing |
| `Engine.DispatchKeepsExtendedState` | src/svelte-suspense-fsm.js:59-113 | processing any event leaves the extended state as it was |
| `Engine.RunKeepsExtendedState` | src/svelte-suspense-fsm.js:49-113 | after any sequence of events the extended state is still the initial one, so `{}` stays `{}` |
| `Engine.DispatchEndsOnLeaf` | src/svelte-suspense-fsm.js:39-56 | from a leaf, an event leaves the machine on a leaf, never on SUSPENSE itself |
| `Engine.DispatchProgresses` | src/svelte-suspense-fsm.js:50-56 | the machine never moves back along OFF, PENDING, SPINNING, DONE/ERROR, and never returns to OFF |
| `Engine.RunEndsOnLeaf` | src/svelte-suspense-fsm.js:39-56 | over any sequence of events from a leaf, the machine ends on a leaf and has not moved back |
| `Engine.StartFromOff` | src/svelte-suspense-fsm.js:51-83 | START in OFF emits RUN(task) only when there is a task, then START_TIMER with the configured or default duration, and ends in PENDING |
| `Engine.OffWaitsForStart` | src/svelte-suspense-fsm.js:51 | every event other than START is a no-op in OFF |
| `Engine.TimerExpiredInPending` | src/svelte-suspense-fsm.js:53 | TIMER_EXPIRED in PENDING emits one RENDER of the fallback and moves to SPINNING |
| `Engine.OutcomeFires` | src/svelte-suspense-fsm.js:54-55 | in PENDING or SPINNING, SUCCEEDED renders MAIN with the event data and ends in DONE, and FAILED renders ERR with the event data and ends in ERROR, the extended state unchanged |
| `Engine.OutcomeIgnoresSubState` | src/svelte-suspense-fsm.js:54-55 | SUCCEEDED and FAILED act the same in PENDING and SPINNING: one RENDER of MAIN or ERR carrying the event data, then DONE or ERROR |
| `Machine.SuspenseMachine.constructor` | src/svelte-suspense-fsm.js:48-49 | a new machine is in OFF with extended state `{}` and keeps its settings |
| `Machine.SuspenseMachine.Step` | src/svelte-suspense-fsm.js:115-122 | the new control state, extended state and outputs are those of `Engine.Dispatch`; the machine stays on a leaf and its extended state does not change |
| `Scenarios.StartWithTaskAndTimeout` | src/svelte-suspense-fsm.js:51-83 | with task `{id: 42}` and timeout 100, START emits `RUN {id: 42}`, then `START_TIMER 100`, and ends in PENDING |
| `Scenarios.StartWithTask` | src/svelte-suspense-fsm.js:51-83 | with a truthy task and a nonzero timeout, START in OFF emits RUN(task), then START_TIMER(timeout), and ends in PENDING |
| `Scenarios.SucceedThenStaleTimer` | src/svelte-suspense-fsm.js:53-54 | SUCCEEDED in SPINNING renders MAIN with the data; a later TIMER_EXPIRED emits nothing |
| `Scenarios.FallbackThenSucceed` | src/svelte-suspense-fsm.js:53-54 | from PENDING, TIMER_EXPIRED then SUCCEEDED emit the fallback, then the main view, and end in DONE |
| `Scenarios.SucceedAfterFallback` | src/svelte-suspense-fsm.js:50-103 | the whole success path emits RUN, START_TIMER, RENDER FALLBACK and RENDER MAIN in that order, and ends in DONE with extended state `{}` |
| `Scenarios.Launch` | src/svelte-suspense-fsm.js:48-83 | a fresh machine object with a truthy task and timeout 100 is, after START, in PENDING with extended state `{}` and has emitted RUN(task), then START_TIMER 100 |
| `Scenarios.DriveSuccessPath` | src/svelte-suspense-fsm.js:50-103 | a machine object driven through START, TIMER_EXPIRED, SUCCEEDED and a late TIMER_EXPIRED returns, over its four steps, exactly RUN, START_TIMER, RENDER FALLBACK and RENDER MAIN in that order |
| `Scenarios.SucceedAfterFallbackWithTask42` | src/svelte-suspense-fsm.js:50-103 | the same path with task `{id: 42}`, timeout 100 and result `{value: 7}` |
| `Scenarios.StartWithEmptySettings` | src/svelte-suspense-fsm.js:59-83 | with settings `{}`, START emits no RUN and only `START_TIMER 200` |
| `Scenarios.StartWithFalsyTaskAndZeroTimeout` | src/svelte-suspense-fsm.js:59-83 | a task of 0 is not run, and a timeout of 0 gives 200 |
| `Scenarios.StartWithNegativeTimeout` | src/svelte-suspense-fsm.js:73-83 | a timeout of -5 is truthy and reaches START_TIMER unchanged |
| `Scenarios.FailBeforeFallback` | src/svelte-suspense-fsm.js:55 | FAILED with `{message: "x"}` in PENDING renders ERR with that data and ends in ERROR, skipping SPINNING |

## Left out

- The engine functions `createStateMachine`, `destructureEvent` and `NO_OUTPUT` (src/svelte-suspense-fsm.js:1) are not part of this model. They are foreign code. Only the dispatch contract the table needs is modelled, in `Engine`.
- `COMMAND_RENDER` and `INIT_EVENT` are kept opaque: the `Render` command constructor and the `InitEvent` event name. The engine's own string values for them are not modelled.
- The event data the engine passes with INIT_EVENT is not known here. The model passes `Undefined`; the one action INIT_EVENT triggers (`startTimer`) reads no event data.
- Drivers may not send INIT_EVENT: `ExternalEvent` excludes it. What the engine does with an INIT_EVENT sent from outside is not modelled.
- `factory` (src/svelte-suspense-fsm.js:124-126) is a thin wrapper over the engine's constructor; the `SuspenseMachine` constructor stands for it.
- The exported `properties`, `commands` and `events` arrays (src/svelte-suspense-fsm.js:7, 27, 38) appear only as the datatypes `Display`, `Command` and `ExternalEvent`.
- Running timers and tasks, and any rendering, are done by external drivers that only receive commands.
- `Object.assign` edge cases are not modelled: getters, prototypes, symbol keys and non-enumerable properties. Fragments are finite maps of plain values.
- Concurrency and event serialisation are not modelled. Events are processed one at a time.
- JavaScript truthiness is modelled for `Value` only, without NaN or -0.
- Actions.TimerDuration: the source replaces every falsy timeout (`undefined`, `null`, `false`, `""`, `NaN`, 0) by 200. The model represents only an absent or an integer timeout, so there this means absent or 0. A truthy non-numeric timeout, which would reach START_TIMER unchanged, is not modelled.
- The model assumes the caller supplies a settings object. `factory()` called without one would make `runOperation` throw when it destructures the settings (src/svelte-suspense-fsm.js:60).
