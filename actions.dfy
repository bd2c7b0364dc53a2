/**
 * The output-command protocol and the settings object the actions read.
 * Commands are effect descriptions for an external driver; the machine never
 * performs them itself.
 */
module Commands {
  import opened Wrappers
  import opened Values

  /** The `display` property of a RENDER command (src/svelte-suspense-fsm.js:4-7). */
  datatype Display = Fallback | Main | Err

  /**
   * The three command kinds (src/svelte-suspense-fsm.js:24-27). The name of
   * the render command is the engine's COMMAND_RENDER constant, kept opaque:
   * it is the `Render` constructor here. `data` is None when the params
   * object has no `data` property at all.
   */
  datatype Command =
    | Render(display: Display, data: Option<Value>)
    | Run(task: Value)
    | StartTimer(duration: int)

  /**
   * The per-instance settings object. An absent property is None. Only an
   * absent or an integer timeout is represented; other timeout values are
   * outside this model.
   */
  datatype Settings = Settings(task: Option<Value>, timeout: Option<int>)

  /** The duration used when `settings.timeout` is absent or 0. */
  const DefaultTimeout: int := 200

  /** `settings.task` is present and truthy, so there is a task to run. */
  predicate HasTask(settings: Settings)
    ensures !HasTask(settings) <==>
      settings.task in {None, Some(Undefined), Some(Null), Some(Bool(false)), Some(Num(0)), Some(Str(""))}
  {
    settings.task.Some? && Truthy(settings.task.value)
  }
}

/**
 * The five actions of src/svelte-suspense-fsm.js:59-113. Each maps
 * (extended state, event data, settings) to a list of extended-state
 * update fragments and a list of output commands, and is a pure function.
 */
module Actions {
  import opened Wrappers
  import opened Values
  import ExtendedState
  import Commands

  datatype ActionResult = ActionResult(updates: seq<ExtendedState.Fragment>, outputs: seq<Commands.Command>)

  /** Asks the driver to run the configured task, if there is one. */
  function RunOperation(extendedState: ExtendedState.State, eventData: Value, settings: Commands.Settings): (r: ActionResult)
    ensures r.updates == []
    ensures |r.outputs| <= 1
    ensures r.outputs != [] <==> Commands.HasTask(settings)
    ensures forall c :: c in r.outputs ==> c.Run? && settings.task == Some(c.task)
  {
    if Commands.HasTask(settings) then
      ActionResult([], [Commands.Run(settings.task.value)])
    else
      ActionResult([], [])
  }

  /** `settings.timeout || 200`, for a timeout that is a number or absent. */
  function TimerDuration(settings: Commands.Settings): (d: int)
    ensures d != 0
    ensures settings.timeout.None? ==> d == Commands.DefaultTimeout
    ensures settings.timeout.Some? && settings.timeout.value != 0 ==> d == settings.timeout.value
    ensures settings.timeout == Some(0) ==> d == Commands.DefaultTimeout
  {
    match settings.timeout
    case None => Commands.DefaultTimeout
    case Some(t) => if t != 0 then t else Commands.DefaultTimeout
  }

  /** Asks the driver to start the fallback timer. */
  function StartTimer(extendedState: ExtendedState.State, eventData: Value, settings: Commands.Settings): (r: ActionResult)
    ensures r.updates == []
    ensures |r.outputs| == 1 && r.outputs[0].StartTimer?
    ensures r.outputs[0].duration == TimerDuration(settings)
  {
    ActionResult([], [Commands.StartTimer(TimerDuration(settings))])
  }

  /** Shows the fallback view; the params object has no `data`. */
  function RenderFallback(extendedState: ExtendedState.State, eventData: Value, settings: Commands.Settings): (r: ActionResult)
    ensures r.updates == []
    ensures |r.outputs| == 1 && r.outputs[0].Render?
    ensures r.outputs[0].display == Commands.Fallback && r.outputs[0].data.None?
  {
    ActionResult([], [Commands.Render(Commands.Fallback, None)])
  }

  /** Shows the main view with the task's result, passed through verbatim. */
  function RenderSucceeded(extendedState: ExtendedState.State, eventData: Value, settings: Commands.Settings): (r: ActionResult)
    ensures r.updates == []
    ensures |r.outputs| == 1 && r.outputs[0].Render?
    ensures r.outputs[0].display == Commands.Main && r.outputs[0].data == Some(eventData)
  {
    ActionResult([], [Commands.Render(Commands.Main, Some(eventData))])
  }

  /** Shows the error view with the task's error, passed through verbatim. */
  function RenderError(extendedState: ExtendedState.State, eventData: Value, settings: Commands.Settings): (r: ActionResult)
    ensures r.updates == []
    ensures |r.outputs| == 1 && r.outputs[0].Render?
    ensures r.outputs[0].display == Commands.Err && r.outputs[0].data == Some(eventData)
  {
    ActionResult([], [Commands.Render(Commands.Err, Some(eventData))])
  }
}
