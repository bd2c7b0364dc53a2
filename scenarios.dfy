/** Concrete lifecycles of the suspense machine, from construction on. */
module Scenarios {
  import opened Wrappers
  import opened Values
  import Commands
  import opened Topology
  import opened Engine
  import Machine

  function Task42(): (task: Value) { Obj(map["id" := Num(42)]) }

  /** Settings {task: {id: 42}, timeout: 100}: START runs the task, then starts a 100 timer. */
  lemma StartWithTaskAndTimeout()
    ensures Dispatch(InitialControlState, InitialExtendedState, Start, Undefined,
                     Commands.Settings(Some(Task42()), Some(100)))
         == Reaction(Pending, map[], [Commands.Run(Task42()), Commands.StartTimer(100)])
  {
    StartFromOff(InitialExtendedState, Undefined, Commands.Settings(Some(Task42()), Some(100)));
  }

  function Settings100(): (settings: Commands.Settings) { Commands.Settings(Some(Task42()), Some(100)) }

  /** START, TIMER_EXPIRED, SUCCEEDED with `result`, then a late TIMER_EXPIRED. */
  function Lifecycle(result: Value): (events: seq<(ExternalEvent, Value)>)
  {
    [(Start, Undefined)] + AfterStart(result)
  }

  function AfterStart(result: Value): (events: seq<(ExternalEvent, Value)>)
  {
    [(TimerExpired, Undefined)] + AfterFallback(result)
  }

  function AfterFallback(result: Value): (events: seq<(ExternalEvent, Value)>)
  {
    [(Succeeded, result), (TimerExpired, Undefined)]
  }

  /** The last two events: SUCCEEDED in SPINNING, then a TIMER_EXPIRED that DONE drops. */
  lemma SucceedThenStaleTimer(result: Value, settings: Commands.Settings)
    ensures Run(Spinning, map[], AfterFallback(result), settings)
         == Reaction(Done, map[], [Commands.Render(Commands.Main, Some(result))])
  {
    var late: seq<(ExternalEvent, Value)> := [(TimerExpired, Undefined)];
    assert AfterFallback(result) == [(Succeeded, result)] + late;
    RunFirst(Spinning, map[], Succeeded, result, late, settings);
    OutcomeIgnoresSubState(Spinning, map[], result, settings);
    RunFromTerminal(Done, map[], late, settings);
  }

  /** Everything after START: the fallback, then the outcome above. */
  lemma FallbackThenSucceed(result: Value, settings: Commands.Settings)
    ensures Run(Pending, map[], AfterStart(result), settings)
         == Reaction(Done, map[], [Commands.Render(Commands.Fallback, None), Commands.Render(Commands.Main, Some(result))])
  {
    RunFirst(Pending, map[], TimerExpired, Undefined, AfterFallback(result), settings);
    TimerExpiredInPending(map[], Undefined, settings);
    SucceedThenStaleTimer(result, settings);
  }

  /** START with a truthy task and a nonzero timeout: RUN(task), then START_TIMER(timeout). */
  lemma StartWithTask(task: Value, timeout: int)
    requires Truthy(task) && timeout != 0
    ensures Dispatch(Off, map[], Start, Undefined, Commands.Settings(Some(task), Some(timeout)))
         == Reaction(Pending, map[], [Commands.Run(task), Commands.StartTimer(timeout)])
  {
    StartFromOff(map[], Undefined, Commands.Settings(Some(task), Some(timeout)));
  }

  /**
   * A machine with a task and a timeout, through the whole success path:
   * RUN, START_TIMER, the fallback, the main view with the data, and
   * nothing for the late timer.
   */
  lemma SucceedAfterFallback(task: Value, timeout: int, result: Value)
    requires Truthy(task) && timeout != 0
    ensures Run(InitialControlState, InitialExtendedState, Lifecycle(result), Commands.Settings(Some(task), Some(timeout)))
         == Reaction(Done, map[],
                     [Commands.Run(task), Commands.StartTimer(timeout),
                      Commands.Render(Commands.Fallback, None),
                      Commands.Render(Commands.Main, Some(result))])
  {
    var settings := Commands.Settings(Some(task), Some(timeout));
    StartWithTask(task, timeout);
    FallbackThenSucceed(result, settings);
    RunFirst(Off, map[], Start, Undefined, AfterStart(result), settings);
  }

  /** A fresh machine with a task and a 100 timeout, after START. */
  method Launch(task: Value) returns (m: Machine.SuspenseMachine, outputs: seq<Commands.Command>)
    requires Truthy(task)
    ensures fresh(m) && m.Valid()
    ensures m.settings == Commands.Settings(Some(task), Some(100))
    ensures m.control == Pending && m.extended == map[]
    ensures outputs == [Commands.Run(task), Commands.StartTimer(100)]
  {
    var settings := Commands.Settings(Some(task), Some(100));
    m := new Machine.SuspenseMachine(settings);
    StartFromOff(map[], Undefined, settings);
    outputs := m.Step(Start, Undefined);
  }

  /**
   * The same success path through a machine object: the commands returned
   * by its four `Step` calls, in order.
   */
  method DriveSuccessPath(task: Value, result: Value) returns (outputs: seq<Commands.Command>)
    requires Truthy(task)
    ensures outputs == [Commands.Run(task), Commands.StartTimer(100),
                        Commands.Render(Commands.Fallback, None),
                        Commands.Render(Commands.Main, Some(result))]
  {
    var m;
    m, outputs := Launch(task);
    var settings := m.settings;
    var fallback := Commands.Render(Commands.Fallback, None);
    var main := Commands.Render(Commands.Main, Some(result));
    var out := m.Step(TimerExpired, Undefined);
    assert out == [fallback] && m.control == Spinning && m.extended == map[] by {
      TimerExpiredInPending(map[], Undefined, settings);
    }
    outputs := outputs + out;
    out := m.Step(Succeeded, result);
    assert out == [main] && m.control == Done && m.extended == map[] by {
      OutcomeIgnoresSubState(Spinning, map[], result, settings);
    }
    outputs := outputs + out;
    out := m.Step(TimerExpired, Undefined);
    assert out == [] && m.control == Done by {
      StaleTimerIsNoOp(Done, map[], Undefined, settings);
    }
    outputs := outputs + out;
  }

  /** Settings {task: {id: 42}, timeout: 100} and a result {value: 7}. */
  lemma SucceedAfterFallbackWithTask42()
    ensures Run(InitialControlState, InitialExtendedState, Lifecycle(Obj(map["value" := Num(7)])), Settings100())
         == Reaction(Done, map[],
                     [Commands.Run(Task42()), Commands.StartTimer(100),
                      Commands.Render(Commands.Fallback, None),
                      Commands.Render(Commands.Main, Some(Obj(map["value" := Num(7)])))])
  {
    SucceedAfterFallback(Task42(), 100, Obj(map["value" := Num(7)]));
  }

  /** Settings {}: START runs nothing and starts a timer of the default 200. */
  lemma StartWithEmptySettings()
    ensures Dispatch(InitialControlState, InitialExtendedState, Start, Undefined, Commands.Settings(None, None))
         == Reaction(Pending, map[], [Commands.StartTimer(200)])
  {
    StartFromOff(InitialExtendedState, Undefined, Commands.Settings(None, None));
  }

  /** A falsy task (here 0) is not run, and a timeout of 0 means the default. */
  lemma StartWithFalsyTaskAndZeroTimeout()
    ensures Dispatch(InitialControlState, InitialExtendedState, Start, Undefined, Commands.Settings(Some(Num(0)), Some(0)))
         == Reaction(Pending, map[], [Commands.StartTimer(200)])
  {
    StartFromOff(InitialExtendedState, Undefined, Commands.Settings(Some(Num(0)), Some(0)));
  }

  /** A negative timeout is truthy, so it reaches START_TIMER as it is. */
  lemma StartWithNegativeTimeout()
    ensures Dispatch(InitialControlState, InitialExtendedState, Start, Undefined, Commands.Settings(None, Some(-5)))
         == Reaction(Pending, map[], [Commands.StartTimer(-5)])
  {
    StartFromOff(InitialExtendedState, Undefined, Commands.Settings(None, Some(-5)));
  }

  /** FAILED with {message: "x"} in PENDING renders the error and skips SPINNING. */
  lemma FailBeforeFallback()
    ensures Dispatch(Pending, map[], Failed, Obj(map["message" := Str("x")]), Settings100())
         == Reaction(Error, map[], [Commands.Render(Commands.Err, Some(Obj(map["message" := Str("x")])))])
  {
    OutcomeIgnoresSubState(Pending, map[], Obj(map["message" := Str("x")]), Settings100());
  }
}
