/**
 * The lifecycle state under racing subsystems. Each of them reads the state, decides, and sets the state
 * at some later moment; boot and shutdown run alongside, one transition at a time.
 */
module LifecycleRaces {
  import opened RuntimeStates
  import opened Lifecycle

  type Actor = nat

  /** Where start() and stop() stand. Other tasks run wherever one of them waits: for a state change to be
      published, for a hook, or for the state to be saved. `Dead` is a runtime whose start() has raised after
      opening, `Stuck` one whose stop() could not save the state. */
  datatype Phase =
    | Idle
    | BootOpened
    | InInit
    | InitEnded(raised: bool)
    | Saving
    | Running
    | TearingDown
    | SavingStopped
    | Finished
    | Stuck
    | Dead

  /** What one poll of a subsystem can decide, given the state it has just read. */
  datatype Decision =
    | Connectivity(target: RuntimeState)
    | Pressure(target: RuntimeState)
    | Escalate

  /** The monitors only leave states they manage; an escalation only spares a shutdown. */
  predicate MayDecide(s: RuntimeState, d: Decision) {
    match d
    case Connectivity(target) => s in {Healthy, Degraded, Offline} && target in {Healthy, Degraded, Offline} && target != s
    case Pressure(target) => s in {Healthy, Degraded} && target in {Healthy, Degraded} && target != s
    case Escalate => s !in {Stopping, Stopped}
  }

  /** The set_state calls that follow; recovering from Offline goes through Degraded. */
  function Requests(s: RuntimeState, d: Decision): seq<RuntimeState> {
    match d
    case Connectivity(target) => if target == Healthy && s == Offline then [Degraded, Healthy] else [target]
    case Pressure(target) => [target]
    case Escalate => [FailedState]
  }

  /** Left alone, a decision is carried out: the runtime ends where it was meant to. */
  lemma RequestsArrive(s: RuntimeState, d: Decision)
    requires MayDecide(s, d)
    ensures AfterRequests(s, Requests(s, d)) ==
            match d
            case Connectivity(target) => target
            case Pressure(target) => target
            case Escalate => FailedState
  {
    var requests := Requests(s, d);
    if |requests| == 2 {
      assert requests[1..] == [Healthy] && [Healthy][1..] == [];
      assert AfterRequests(Degraded, [Healthy]) == Healthy;
    } else {
      assert requests[1..] == [];
    }
  }

  datatype World = World(state: RuntimeState, phase: Phase, pending: map<Actor, seq<RuntimeState>>)

  datatype Step =
    | Decide(actor: Actor, decision: Decision)
    | Apply(actor: Actor)
    | Drop(actor: Actor)
    | CallStart
    | EnterInit
    | EndInit(raised: bool)
    | LeaveInit
    | Save(saved: bool)
    | CallStop
    | EndTeardown
    | SaveStopped(saved: bool)

  const NEW := World(Booting, Idle, map[])

  predicate Enabled(w: World, step: Step) {
    match step
    case Decide(actor, decision) => actor !in w.pending && MayDecide(w.state, decision)
    case Apply(actor) => actor in w.pending && w.pending[actor] != []
    case Drop(actor) => actor in w.pending
    case CallStart => w.phase in {Idle, Dead, Finished}
    case EnterInit => w.phase == BootOpened
    case EndInit(_) => w.phase == InInit
    case LeaveInit => w.phase.InitEnded?
    case Save(_) => w.phase == Saving
    case CallStop => w.phase in {Running, Finished, Stuck}
    case EndTeardown => w.phase == TearingDown
    case SaveStopped(_) => w.phase == SavingStopped
  }

  /** One call of the state machine: the state moves or the caller is refused. */
  function Attempt(w: World, target: RuntimeState, moved: Phase, refused: Phase): World {
    if Reachable(w.state, target) then w.(state := target, phase := moved) else w.(phase := refused)
  }

  function Next(w: World, step: Step): World
    requires Enabled(w, step)
  {
    match step
    case Decide(actor, decision) => w.(pending := w.pending[actor := Requests(w.state, decision)])
    case Apply(actor) =>
      var requests := w.pending[actor];
      if Reachable(w.state, requests[0])
      then w.(state := requests[0], pending := if |requests| == 1 then w.pending - {actor} else w.pending[actor := requests[1..]])
      else w.(pending := w.pending - {actor})
    case Drop(actor) => w.(pending := w.pending - {actor})
    case CallStart => Attempt(w, Booting, BootOpened, if w.phase == Finished then Finished else Dead)
    case EnterInit => Attempt(w, Initializing, InInit, Dead)
    case EndInit(raised) => w.(phase := InitEnded(raised))
    case LeaveInit => if w.phase.raised then Attempt(w, FailedState, Dead, Dead) else Attempt(w, Healthy, Saving, Dead)
    case Save(saved) => w.(phase := if saved then Running else Dead)
    case CallStop => if w.phase == Finished then w else Attempt(w, Stopping, TearingDown, w.phase)
    case EndTeardown => Attempt(w, Stopped, SavingStopped, Stuck)
    case SaveStopped(saved) => w.(phase := if saved then Finished else Stuck)
  }

  /** The world after `n` steps; a run lists only enabled ones. */
  ghost predicate Reached(ws: seq<World>, steps: seq<Step>, n: nat)
    requires n < |ws| && n <= |steps|
  {
    if n == 0 then ws[0] == NEW
    else Reached(ws, steps, n - 1) && Enabled(ws[n - 1], steps[n - 1]) && ws[n] == Next(ws[n - 1], steps[n - 1])
  }

  ghost predicate Behaviour(ws: seq<World>, steps: seq<Step>) {
    |ws| == |steps| + 1 && Reached(ws, steps, |steps|)
  }

  const RUNNING_STATES: set<RuntimeState> := {Healthy, Degraded, Offline, FailedState}

  predicate PendingFrom(w: World, targets: set<RuntimeState>) {
    forall a :: a in w.pending ==> forall i :: 0 <= i < |w.pending[a]| ==> w.pending[a][i] in targets
  }

  /** Which states go with which phase, and what may still be asked for. */
  predicate Inv(w: World) {
    && PendingFrom(w, RUNNING_STATES)
    && match w.phase
       case Idle => w.state in {Booting, FailedState} && PendingFrom(w, {FailedState})
       case BootOpened => w.state in {Booting, FailedState} && PendingFrom(w, {FailedState})
       case InInit => w.state in {Initializing, FailedState} && PendingFrom(w, {FailedState})
       case InitEnded(_) => w.state in {Initializing, FailedState} && PendingFrom(w, {FailedState})
       case Saving => w.state in RUNNING_STATES
       case Running => w.state in RUNNING_STATES
       case TearingDown => w.state == Stopping
       case SavingStopped => w.state == Stopped
       case Finished => w.state == Stopped
       case Stuck => w.state == Stopped
       case Dead => w.state in RUNNING_STATES
  }

  lemma DecideKeepsInv(w: World, actor: Actor, decision: Decision)
    requires Inv(w) && Enabled(w, Decide(actor, decision))
    ensures Inv(Next(w, Decide(actor, decision)))
  {}

  lemma ApplyKeepsInv(w: World, actor: Actor)
    requires Inv(w) && Enabled(w, Apply(actor))
    ensures Inv(Next(w, Apply(actor)))
  {}

  lemma DropKeepsInv(w: World, actor: Actor)
    requires Inv(w) && Enabled(w, Drop(actor))
    ensures Inv(Next(w, Drop(actor)))
  {}

  lemma StepKeepsInv(w: World, step: Step)
    requires Inv(w) && Enabled(w, step)
    ensures Inv(Next(w, step))
  {
    if step.Decide? {
      DecideKeepsInv(w, step.actor, step.decision);
    } else if step.Apply? {
      ApplyKeepsInv(w, step.actor);
    } else if step.Drop? {
      DropKeepsInv(w, step.actor);
    }
  }

  lemma NewIsOk()
    ensures Inv(NEW)
  {}

  lemma {:induction false} InvWhenReached(ws: seq<World>, steps: seq<Step>, n: nat)
    requires n < |ws| && n <= |steps| && Reached(ws, steps, n)
    ensures Inv(ws[n])
  {
    hide Inv, Next, Enabled;
    if n == 0 {
      NewIsOk();
    } else {
      InvWhenReached(ws, steps, n - 1);
      StepKeepsInv(ws[n - 1], steps[n - 1]);
    }
  }

  lemma {:induction false} ReachedBefore(ws: seq<World>, steps: seq<Step>, i: nat, n: nat)
    requires i <= n < |ws| && n <= |steps| && Reached(ws, steps, n)
    ensures Reached(ws, steps, i)
  {
    hide Next, Enabled;
    if i < n {
      ReachedBefore(ws, steps, i, n - 1);
    }
  }

  lemma InvAlways(ws: seq<World>, steps: seq<Step>, i: nat)
    requires Behaviour(ws, steps) && i < |ws|
    ensures Inv(ws[i])
  {
    hide Inv, Reached;
    ReachedBefore(ws, steps, i, |steps|);
    InvWhenReached(ws, steps, i);
  }

  lemma StepAt(ws: seq<World>, steps: seq<Step>, i: nat)
    requires Behaviour(ws, steps) && i < |steps|
    ensures Inv(ws[i]) && Enabled(ws[i], steps[i]) && ws[i + 1] == Next(ws[i], steps[i])
  {
    hide Inv, Next, Enabled;
    ReachedBefore(ws, steps, i + 1, |steps|);
    InvAlways(ws, steps, i);
  }

  lemma {:induction false} ReachedInLonger(ws: seq<World>, steps: seq<Step>, ws': seq<World>, steps': seq<Step>, n: nat)
    requires n < |ws| && n <= |steps| && ws <= ws' && steps <= steps' && Reached(ws, steps, n)
    ensures Reached(ws', steps', n)
  {
    hide Next, Enabled;
    if n > 0 {
      ReachedInLonger(ws, steps, ws', steps', n - 1);
    }
  }

  /** Whatever step is enabled at the end of a run continues it. */
  lemma Extended(ws: seq<World>, steps: seq<Step>, step: Step) returns (ws': seq<World>, steps': seq<Step>)
    requires Behaviour(ws, steps) && Enabled(ws[|steps|], step)
    ensures Behaviour(ws', steps') && ws <= ws' && steps' == steps + [step] && ws'[|steps'|] == Next(ws[|steps|], step)
  {
    hide Next, Enabled;
    ws', steps' := ws + [Next(ws[|steps|], step)], steps + [step];
    ReachedInLonger(ws, steps, ws', steps', |steps|);
  }

  /** What can still come after a state, whoever acts next. */
  predicate Later(s: RuntimeState, t: RuntimeState) {
    match s
    case FailedState => t in {FailedState, Stopping, Stopped}
    case Stopping => t in {Stopping, Stopped}
    case Stopped => t == Stopped
    case _ => t != Recovering
  }

  lemma StepGoesLater(w: World, step: Step)
    requires Inv(w) && Enabled(w, step)
    ensures Reachable(w.state, Next(w, step).state) && Later(w.state, Next(w, step).state)
  {}

  /** The states visited form a path in the graph. */
  lemma TrajectoryIsAPath(ws: seq<World>, steps: seq<Step>, i: nat)
    requires Behaviour(ws, steps) && i < |steps|
    ensures ws[i + 1].state == ws[i].state || ws[i + 1].state in Transitions(ws[i].state)
  {
    StepAt(ws, steps, i);
    StepGoesLater(ws[i], steps[i]);
  }

  /** No interleaving overrides a failure or a shutdown, and Recovering is never reached. */
  lemma {:induction false} FailureAndShutdownPrevail(ws: seq<World>, steps: seq<Step>, i: nat, j: nat)
    requires Behaviour(ws, steps) && i <= j < |ws|
    ensures Later(ws[i].state, ws[j].state) && ws[j].state != Recovering
  {
    if i < j {
      FailureAndShutdownPrevail(ws, steps, i, j - 1);
      StepAt(ws, steps, j - 1);
      StepGoesLater(ws[j - 1], steps[j - 1]);
    } else {
      InvAlways(ws, steps, i);
    }
  }

  /** From the return of start() to the call of stop() the runtime can be stopped: stop() is never refused,
      and its shutdown always ends in Stopped. */
  lemma StopIsNeverRefused(ws: seq<World>, steps: seq<Step>, i: nat)
    requires Behaviour(ws, steps) && i < |ws|
    ensures ws[i].phase == Running ==> ws[i].state in RUNNING_STATES && Stopping in Transitions(ws[i].state)
    ensures i < |steps| && steps[i] == CallStop && ws[i].phase == Running ==>
              ws[i + 1].phase == TearingDown && ws[i + 1].state == Stopping
    ensures i < |steps| && steps[i] == EndTeardown ==> ws[i + 1].phase == SavingStopped && ws[i + 1].state == Stopped
  {
    hide Reached;
    InvAlways(ws, steps, i);
    if i < |steps| {
      StepAt(ws, steps, i);
    }
  }

  // Stopping again.

  /** A call of stop() that raises: not marked as stopped, and the state machine refuses to enter Stopping. */
  predicate StopRaises(w: World) {
    w.phase != Finished && !Reachable(w.state, Stopping)
  }

  lemma EndedStep(w: World, step: Step)
    requires Inv(w) && Enabled(w, step) && w.phase in {Finished, Stuck}
    ensures Next(w, step).phase == w.phase && Next(w, step).state == Stopped
  {}

  /** After a completed teardown nothing moves the runtime any more. */
  lemma {:induction false} EndsForGood(ws: seq<World>, steps: seq<Step>, i: nat, j: nat)
    requires Behaviour(ws, steps) && i <= j < |ws| && ws[i].phase in {Finished, Stuck}
    ensures ws[j].phase == ws[i].phase && ws[j].state == Stopped
  {
    hide Reached, Next, Enabled;
    if i < j {
      EndsForGood(ws, steps, i, j - 1);
      StepAt(ws, steps, j - 1);
      EndedStep(ws[j - 1], steps[j - 1]);
    } else {
      InvAlways(ws, steps, i);
    }
  }

  /** Calling stop() again after a completed teardown changes nothing; it raises, each time, exactly if the final
      state could not be saved. */
  lemma StopIsIdempotentIff(ws: seq<World>, steps: seq<Step>, i: nat, j: nat)
    requires Behaviour(ws, steps) && i < j < |steps| && steps[i].SaveStopped? && steps[j] == CallStop
    ensures StopRaises(ws[j]) <==> !steps[i].saved
    ensures ws[j + 1] == ws[j]
  {
    hide Reached;
    StepAt(ws, steps, i);
    EndsForGood(ws, steps, i + 1, j);
    StepAt(ws, steps, j);
  }

  /** Initialization ends in Healthy exactly when on_init did not raise and no subsystem had escalated by the
      time it ended; otherwise start() raises and the runtime is left failed. */
  lemma BecomesHealthyIff(ws: seq<World>, steps: seq<Step>, i: nat)
    requires Behaviour(ws, steps) && i < |steps| && steps[i] == LeaveInit
    ensures ws[i].phase.InitEnded?
    ensures ws[i + 1].phase == Saving <==> !ws[i].phase.raised && ws[i].state != FailedState
    ensures ws[i + 1].phase == Saving ==> ws[i + 1].state == Healthy
    ensures ws[i + 1].phase != Saving ==> ws[i + 1].phase == Dead && ws[i + 1].state == FailedState
  {
    StepAt(ws, steps, i);
  }

  // The state start() returns in.

  /** The step carries out an escalation. */
  predicate Escalates(w: World, step: Step) {
    step.Apply? && step.actor in w.pending && w.pending[step.actor] != [] && w.pending[step.actor][0] == FailedState
  }

  /** An escalation is carried out after step `i` and before step `j`. */
  predicate EscalatedBetween(ws: seq<World>, steps: seq<Step>, i: nat, j: nat)
    requires j <= |steps| <= |ws|
  {
    exists k :: i < k < j && Escalates(ws[k], steps[k])
  }

  lemma SavingStep(w: World, step: Step)
    requires Inv(w) && Enabled(w, step) && w.phase == Saving && !step.Save?
    ensures Next(w, step).phase == Saving
    ensures Next(w, step).state == FailedState <==> w.state == FailedState || Escalates(w, step)
  {}

  /** From the moment the runtime becomes Healthy until the save, it is Failed exactly if an escalation has been
      carried out since. */
  lemma {:induction false} FailedWhileSaving(ws: seq<World>, steps: seq<Step>, i: nat, j: nat)
    requires Behaviour(ws, steps) && i < j < |ws| && steps[i] == LeaveInit && ws[i + 1].phase == Saving
    requires forall k :: i < k < j ==> !steps[k].Save?
    ensures ws[j].phase == Saving
    ensures ws[j].state == FailedState <==> EscalatedBetween(ws, steps, i, j)
  {
    hide Reached, Inv, Next, Enabled, Escalates;
    if i + 1 == j {
      BecomesHealthyIff(ws, steps, i);
    } else {
      FailedWhileSaving(ws, steps, i, j - 1);
      StepAt(ws, steps, j - 1);
      SavingStep(ws[j - 1], steps[j - 1]);
    }
  }

  lemma EntersSaving(w: World, step: Step)
    requires Enabled(w, step) && Next(w, step).phase == Saving
    ensures step == LeaveInit || (w.phase == Saving && !step.Save?)
  {}

  /** A runtime that is saving its state became Healthy at the end of its initialization. */
  lemma {:induction false} SavingSince(ws: seq<World>, steps: seq<Step>, j: nat) returns (i: nat)
    requires Behaviour(ws, steps) && j < |ws| && ws[j].phase == Saving
    ensures i < j && steps[i] == LeaveInit && ws[i + 1].phase == Saving && forall k :: i < k < j ==> !steps[k].Save?
  {
    hide Reached, Inv, Next, Enabled;
    if j == 0 {
      StartsNew(ws, steps);
    } else {
      StepAt(ws, steps, j - 1);
      EntersSaving(ws[j - 1], steps[j - 1]);
      if steps[j - 1] == LeaveInit {
        i := j - 1;
      } else {
        i := SavingSince(ws, steps, j - 1);
      }
    }
  }

  lemma StartsNew(ws: seq<World>, steps: seq<Step>)
    requires Behaviour(ws, steps)
    ensures ws[0] == NEW
  {
    ReachedBefore(ws, steps, 0, |steps|);
  }

  /** start() returns exactly when the state could be saved after initialization ended, at step `i`, in Healthy.
      At the return the runtime can be stopped, and is Failed exactly if an escalation was carried out between
      the two. */
  lemma StartReturnsIff(ws: seq<World>, steps: seq<Step>, j: nat) returns (i: nat)
    requires Behaviour(ws, steps) && j < |steps| && steps[j].Save?
    ensures i < j && steps[i] == LeaveInit && ws[i + 1].state == Healthy && forall k :: i < k < j ==> !steps[k].Save?
    ensures ws[j + 1].phase == Running <==> steps[j].saved
    ensures ws[j + 1].state in RUNNING_STATES
    ensures ws[j + 1].state == FailedState <==> EscalatedBetween(ws, steps, i, j)
  {
    hide Reached, EscalatedBetween;
    StepAt(ws, steps, j);
    i := SavingSince(ws, steps, j);
    BecomesHealthyIff(ws, steps, i);
    FailedWhileSaving(ws, steps, i, j);
  }

  // Two runs that the documentation does not foresee.

  lemma BootedRun() returns (ws: seq<World>, steps: seq<Step>)
    ensures Behaviour(ws, steps) && ws[|steps|] == World(Healthy, Saving, map[])
  {
    hide Inv;
    ws, steps := [NEW], [];
    assert Reached(ws, steps, 0);
    ws, steps := Extended(ws, steps, CallStart);
    ws, steps := Extended(ws, steps, EnterInit);
    ws, steps := Extended(ws, steps, EndInit(false));
    ws, steps := Extended(ws, steps, LeaveInit);
  }

  /** start() returns although a supervised task has already brought the runtime down. */
  lemma StartReturnsFailed() returns (ws: seq<World>, steps: seq<Step>)
    ensures Behaviour(ws, steps) && ws[|steps|].phase == Running && ws[|steps|].state == FailedState
  {
    hide Inv, Reached;
    ws, steps := BootedRun();
    ws, steps := Extended(ws, steps, Decide(0, Escalate));
    assert ws[|steps|].pending == map[0 := [FailedState]];
    ws, steps := Extended(ws, steps, Apply(0));
    ws, steps := Extended(ws, steps, Save(true));
  }

  /** stop() is refused because an earlier one could not save the final state. */
  lemma StopRefused() returns (ws: seq<World>, steps: seq<Step>)
    ensures Behaviour(ws, steps) && 2 <= |steps| && steps[|steps| - 2] == SaveStopped(false) && steps[|steps| - 1] == CallStop
    ensures StopRaises(ws[|steps| - 1]) && ws[|steps|].phase == Stuck
  {
    hide Inv, Reached;
    ws, steps := BootedRun();
    ws, steps := Extended(ws, steps, Save(true));
    ws, steps := Extended(ws, steps, CallStop);
    ws, steps := Extended(ws, steps, EndTeardown);
    ws, steps := Extended(ws, steps, SaveStopped(false));
    ws, steps := Extended(ws, steps, CallStop);
  }
}
