/**
 * A machine instance built from the suspense definition and one settings
 * object: the engine holds the current control state and extended state and
 * updates both as each event is processed.
 */
module Machine {
  import opened Values
  import ExtendedState
  import Commands
  import opened Topology
  import opened Engine

  class SuspenseMachine {
    var control: State
    var extended: ExtendedState.State
    const settings: Commands.Settings

    /** Between events the machine rests on a leaf state. */
    ghost predicate Valid()
      reads this
    {
      IsLeaf(control)
    }

    /** A fresh machine: control state OFF, extended state {}, no outputs. */
    constructor (settings: Commands.Settings)
      ensures Valid()
      ensures control == InitialControlState && Moniker(control) == "OFF"
      ensures extended == InitialExtendedState && extended == map[]
      ensures this.settings == settings
    {
      control := InitialControlState;
      extended := InitialExtendedState;
      this.settings := settings;
    }

    /**
     * Deliver one event with its data and return the commands it produced.
     * The new control and extended state and the outputs are those of the
     * dispatch contract; an unhandled event changes nothing.
     */
    method Step(event: ExternalEvent, eventData: Value) returns (outputs: seq<Commands.Command>)
      requires Valid()
      modifies this
      ensures Valid()
      ensures Reaction(control, extended, outputs) == Dispatch(old(control), old(extended), event, eventData, settings)
      ensures extended == old(extended)
    {
      DispatchEndsOnLeaf(control, extended, event, eventData, settings);
      DispatchKeepsExtendedState(control, extended, event, eventData, settings);
      var found := Resolve(control, event);
      if found.None? {
        return [];
      }
      var t := found.value;
      var result := Perform(t.action, extended, eventData, settings);
      var merged := ExtendedState.UpdateState(extended, result.updates);
      control, extended, outputs := t.to, merged, result.outputs;
      if !IsLeaf(control) {
        var entry := Resolve(control, InitEvent);
        if entry.Some? {
          var initial := Perform(entry.value.action, extended, Undefined, settings);
          merged := ExtendedState.UpdateState(extended, initial.updates);
          control, extended, outputs := entry.value.to, merged, outputs + initial.outputs;
        }
      }
    }
  }
}
