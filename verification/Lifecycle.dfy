/** Boot, shutdown and set_state on the shared state machine, and the runtime's start/stop gate. */
module Lifecycle {
  import opened RuntimeStates

  datatype StateChange = StateChange(previous: RuntimeState, current: RuntimeState)

  predicate Reachable(s: RuntimeState, target: RuntimeState) {
    target == s || target in Transitions(s)
  }

  /** The state after a list of set_state requests, the illegal ones being refused. */
  function AfterRequests(s: RuntimeState, requests: seq<RuntimeState>): RuntimeState
    decreases |requests|
  {
    if requests == [] then s
    else AfterRequests(if Reachable(s, requests[0]) then requests[0] else s, requests[1..])
  }

  /** What subsystems ask for: never recovery, and nothing of the boot or shutdown sequence. */
  const SUBSYSTEM_TARGETS: set<RuntimeState> := {Healthy, Degraded, Offline, FailedState}

  predicate FromSubsystems(requests: seq<RuntimeState>) {
    forall r :: r in requests ==> r in SUBSYSTEM_TARGETS
  }

  /** Every published change is an edge, each from where the one before it led, the last one to `now`. */
  predicate Path(changes: seq<StateChange>, now: RuntimeState) {
    && (forall i :: 0 <= i < |changes| ==> changes[i].current in Transitions(changes[i].previous))
    && (forall i :: 0 < i < |changes| ==> changes[i].previous == changes[i - 1].current)
    && (changes != [] ==> changes[|changes| - 1].current == now)
  }

  datatype BootResult = Booted | InitRaised | RefusedTransition

  class LifecycleManager {
    const states: StateMachine
    var published: seq<StateChange>

    constructor (states: StateMachine)
      ensures this.states == states && published == []
    {
      this.states := states;
      published := [];
    }

    ghost predicate Valid()
      reads this, states
    {
      Path(published, states.state)
    }

    method SetState(target: RuntimeState) returns (ok: bool)
      requires Valid()
      modifies this, states
      ensures Valid()
      ensures ok <==> Reachable(old(states.state), target)
      ensures states.state == if ok then target else old(states.state)
      ensures published == old(published) +
                if states.state != old(states.state) then [StateChange(old(states.state), target)] else []
    {
      var previous := states.Transition(target);
      if previous.None? {
        return false;
      }
      if previous.value == target {
        return true;
      }
      published := published + [StateChange(previous.value, target)];
      return true;
    }

    /** Other tasks' set_state calls while a hook is awaited. */
    method Interfere(requests: seq<RuntimeState>)
      requires Valid()
      modifies this, states
      ensures Valid()
      ensures states.state == AfterRequests(old(states.state), requests)
      ensures old(published) <= published
    {
      for i := 0 to |requests|
        invariant Valid()
        invariant AfterRequests(states.state, requests[i..]) == AfterRequests(old(states.state), requests)
        invariant old(published) <= published
      {
        assert requests[i..][0] == requests[i] && requests[i..][1..] == requests[i + 1..];
        var _ := SetState(requests[i]);
      }
    }

    /** `meanwhile` is what subsystems ask for while on_init runs. A boot succeeds only into Healthy; one that
        begins in Booting and does not succeed leaves the runtime in Failed. */
    method Boot(meanwhile: seq<RuntimeState>, initRaises: bool) returns (r: BootResult)
      requires Valid()
      modifies this, states
      ensures Valid()
      ensures r == Booted ==> states.state == Healthy
      ensures old(states.state) != Booting && Booting !in Transitions(old(states.state)) ==>
                r == RefusedTransition && states.state == old(states.state)
      ensures old(states.state) == Booting ==>
                var s := AfterRequests(Initializing, meanwhile);
                && (r == Booted <==> !initRaises && Reachable(s, Healthy))
                && (initRaises && Reachable(s, FailedState) ==> r == InitRaised && states.state == FailedState)
                && (initRaises && !Reachable(s, FailedState) ==> r == RefusedTransition && states.state == s)
                && (!initRaises && !Reachable(s, Healthy) ==> r == RefusedTransition && states.state == s)
    {
      var ok := SetState(Booting);
      if !ok { return RefusedTransition; }
      ok := SetState(Initializing);
      if !ok { return RefusedTransition; }
      Interfere(meanwhile);
      if initRaises {
        ok := SetState(FailedState);
        return if ok then InitRaised else RefusedTransition;
      }
      ok := SetState(Healthy);
      return if ok then Booted else RefusedTransition;
    }

    /** Stops even when the hook raises; `raised` tells the caller about it afterwards. */
    method Shutdown(meanwhile: seq<RuntimeState>, stopRaises: bool) returns (entered: bool, raised: bool)
      requires Valid()
      modifies this, states
      ensures Valid()
      ensures entered <==> Reachable(old(states.state), Stopping)
      ensures !entered ==> raised && states.state == old(states.state)
      ensures entered && FromSubsystems(meanwhile) ==> states.state == Stopped && raised == stopRaises
    {
      entered := SetState(Stopping);
      if !entered { return false, true; }
      Interfere(meanwhile);
      StoppingHolds(meanwhile);
      var ok := SetState(Stopped);
      return true, stopRaises || !ok;
    }
  }

  /** Nothing a subsystem asks for is honoured while stopping. */
  lemma {:induction false} StoppingHolds(requests: seq<RuntimeState>)
    ensures FromSubsystems(requests) ==> AfterRequests(Stopping, requests) == Stopping
  {
    if requests != [] {
      assert requests[0] in requests;
      assert forall r :: r in requests[1..] ==> r in requests;
      StoppingHolds(requests[1..]);
    }
  }

  /** During initialization only an escalation is honoured by subsystems that read the state first, and then
      nothing undoes it: the boot ends in Failed whatever on_init does. */
  lemma {:induction false} EscalationDuringInit(requests: seq<RuntimeState>)
    requires forall r :: r in requests ==> r == FailedState
    ensures AfterRequests(Initializing, requests) == if requests == [] then Initializing else FailedState
    ensures AfterRequests(FailedState, requests) == FailedState
  {
    if requests != [] {
      assert requests[0] in requests;
      assert forall r :: r in requests[1..] ==> r in requests;
      EscalationDuringInit(requests[1..]);
    }
  }

  datatype StartResult = Started | AlreadyStarted | OpenFailed | BootFailed(boot: BootResult) | SaveFailed
  datatype StopResult = StoppedOk | AlreadyStopped | NeverStarted | StopRaised | StopSaveFailed

  class EdgeSentinel {
    const lifecycle: LifecycleManager
    var started: bool
    var stopped: bool

    constructor (lifecycle: LifecycleManager)
      ensures this.lifecycle == lifecycle && !started && !stopped
    {
      this.lifecycle := lifecycle;
      started := false;
      stopped := false;
    }

    /** The gate on durable calls. */
    predicate IsStarted()
      reads this
    {
      started && !stopped
    }

    /** `meanwhile` is what subsystems ask for while on_init runs, `afterwards` between the end of the boot and
        the return. */
    method Start(opens: bool, meanwhile: seq<RuntimeState>, initRaises: bool, afterwards: seq<RuntimeState>, saves: bool) returns (r: StartResult)
      requires lifecycle.Valid()
      modifies this, lifecycle, lifecycle.states
      ensures lifecycle.Valid()
      ensures old(IsStarted()) <==> r == AlreadyStarted
      ensures r == OpenFailed <==> !old(IsStarted()) && !opens
      ensures !old(IsStarted()) && opens && old(lifecycle.states.state) == Booting ==>
                var boots := !initRaises && Reachable(AfterRequests(Initializing, meanwhile), Healthy);
                (r == Started <==> boots && saves) && (r == SaveFailed <==> boots && !saves)
      ensures r == Started ==> IsStarted()
      ensures r == Started || r == SaveFailed ==> lifecycle.states.state == AfterRequests(Healthy, afterwards)
      ensures (r == Started || r == SaveFailed) && FromSubsystems(afterwards) ==>
                && Stopping in Transitions(lifecycle.states.state)
                && (lifecycle.states.state == FailedState <==> FailedState in afterwards)
      ensures r != Started ==> started == old(started) && stopped == old(stopped)
      ensures r == AlreadyStarted || r == OpenFailed ==> lifecycle.states.state == old(lifecycle.states.state)
      ensures !old(IsStarted()) && opens && old(lifecycle.states.state) != Booting && Booting !in Transitions(old(lifecycle.states.state)) ==>
                r == BootFailed(RefusedTransition)
    {
      if started && !stopped { return AlreadyStarted; }
      if !opens { return OpenFailed; }
      var boot := lifecycle.Boot(meanwhile, initRaises);
      if boot != Booted { return BootFailed(boot); }
      lifecycle.Interfere(afterwards);
      if FromSubsystems(afterwards) {
        RunningStatesHold(Healthy, afterwards);
        FailedIffEscalated(Healthy, afterwards);
      }
      if !saves { return SaveFailed; }
      started := true;
      stopped := false;
      return Started;
    }

    /** A shutdown that raises, or a final state that cannot be saved, leaves the gate open. */
    method Stop(meanwhile: seq<RuntimeState>, stopRaises: bool, saves: bool) returns (r: StopResult)
      requires lifecycle.Valid()
      modifies this, lifecycle, lifecycle.states
      ensures lifecycle.Valid() && started == old(started)
      ensures r == NeverStarted <==> !old(started)
      ensures r == AlreadyStopped <==> old(started) && old(stopped)
      ensures r == NeverStarted || r == AlreadyStopped ==>
                stopped == old(stopped) && lifecycle.states.state == old(lifecycle.states.state)
      ensures old(IsStarted()) && Reachable(old(lifecycle.states.state), Stopping) && FromSubsystems(meanwhile) ==>
                && lifecycle.states.state == Stopped
                && (r == StopRaised <==> stopRaises) && (r == StopSaveFailed <==> !stopRaises && !saves)
                && (r == StoppedOk <==> !stopRaises && saves)
      ensures old(IsStarted()) && !Reachable(old(lifecycle.states.state), Stopping) ==>
                r == StopRaised && lifecycle.states.state == old(lifecycle.states.state)
      ensures old(IsStarted()) ==> (stopped <==> r == StoppedOk)
    {
      if !started { return NeverStarted; }
      if stopped { return AlreadyStopped; }
      var entered, raised := lifecycle.Shutdown(meanwhile, stopRaises);
      if raised { return StopRaised; }
      if !saves { return StopSaveFailed; }
      stopped := true;
      return StoppedOk;
    }
  }

  /** Left to subsystems, a healthy runtime stays where it can be stopped. */
  lemma {:induction false} RunningStatesHold(s: RuntimeState, requests: seq<RuntimeState>)
    requires s in SUBSYSTEM_TARGETS && FromSubsystems(requests)
    ensures AfterRequests(s, requests) in SUBSYSTEM_TARGETS && Stopping in Transitions(AfterRequests(s, requests))
    decreases |requests|
  {
    if requests != [] {
      assert requests[0] in requests;
      assert forall r :: r in requests[1..] ==> r in requests;
      RunningStatesHold(if Reachable(s, requests[0]) then requests[0] else s, requests[1..]);
    }
  }

  /** Subsystems bring a running runtime to Failed exactly by escalating, whenever they do it. */
  lemma {:induction false} FailedIffEscalated(s: RuntimeState, requests: seq<RuntimeState>)
    requires s in SUBSYSTEM_TARGETS && FromSubsystems(requests)
    ensures AfterRequests(s, requests) == FailedState <==> s == FailedState || FailedState in requests
    decreases |requests|
  {
    if requests != [] {
      assert requests[0] in requests;
      assert forall r :: r in requests[1..] ==> r in requests;
      assert requests == [requests[0]] + requests[1..];
      FailedIffEscalated(if Reachable(s, requests[0]) then requests[0] else s, requests[1..]);
    }
  }

  /** No state leads back to Booting: a runtime that left it cannot be started again. */
  lemma NoWayBackToBooting(s: RuntimeState)
    ensures Reachable(s, Booting) <==> s == Booting
  {}
}
