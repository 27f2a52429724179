/** The lifecycle states and the graph of allowed transitions. */
module RuntimeStates {
  import opened Options

  datatype RuntimeState = Booting | Initializing | Healthy | Degraded | Offline | Recovering | FailedState | Stopping | Stopped

  function Transitions(s: RuntimeState): set<RuntimeState> {
    match s
    case Booting => {Initializing, FailedState}
    case Initializing => {Healthy, Degraded, FailedState}
    case Healthy => {Degraded, Offline, Recovering, Stopping, FailedState}
    case Degraded => {Healthy, Offline, Recovering, Stopping, FailedState}
    case Offline => {Recovering, Degraded, Stopping, FailedState}
    case Recovering => {Healthy, Degraded, Offline, FailedState, Stopping}
    case FailedState => {Recovering, Stopping}
    case Stopping => {Stopped}
    case Stopped => {}
  }

  /** The same graph the other way round: where each state can be entered from. */
  lemma WhatLeadsTo(s: RuntimeState, t: RuntimeState)
    ensures t in Transitions(s) <==>
            match t
            case Booting => false
            case Initializing => s == Booting
            case Healthy => s in {Initializing, Degraded, Recovering}
            case Degraded => s in {Initializing, Healthy, Offline, Recovering}
            case Offline => s in {Healthy, Degraded, Recovering}
            case Recovering => s in {Healthy, Degraded, Offline, FailedState}
            case FailedState => s !in {FailedState, Stopping, Stopped}
            case Stopping => s !in {Booting, Initializing, Stopping, Stopped}
            case Stopped => s == Stopping
  {}

  class StateMachine {
    var state: RuntimeState

    constructor (initial: RuntimeState)
      ensures state == initial
    {
      state := initial;
    }

    predicate CanTransition(target: RuntimeState)
      reads this
    {
      target in Transitions(state)
    }

    /** Moves along an edge and returns the state it left; staying put is always allowed; anything else is
        refused and changes nothing. */
    method Transition(target: RuntimeState) returns (previous: Option<RuntimeState>)
      modifies this
      ensures previous.Some? <==> target == old(state) || target in Transitions(old(state))
      ensures previous.Some? ==> previous.value == old(state) && state == target
      ensures previous.None? ==> state == old(state)
    {
      if target == state {
        return Some(state);
      }
      if !CanTransition(target) {
        return None;
      }
      previous := Some(state);
      state := target;
    }
  }
}
