/**
 * A breaker under concurrent callers. Each admission and each completion is atomic (the lock), the
 * awaited functions run in between, and a restart drops every call in flight. A cancelled call ends
 * without telling the breaker, since `except Exception` does not catch it.
 */
module BreakerRuns {
  import opened Options
  import opened CircuitBreakers

  type CallId = nat

  /** `trials` are the running calls admitted while not Closed; `holder` set the in-flight flag.
      `outcomes` lists the completions in order, true for success. */
  datatype World = World(
    circuit: Circuit,
    saved: Option<Saved>,
    now: real,
    calls: set<CallId>,
    trials: set<CallId>,
    holder: Option<CallId>,
    outcomes: seq<bool>)

  datatype Step =
    | Arrive(id: CallId, at: real)
    | Finish(id: CallId, ok: bool, at: real, wall: real)
    | Cancel(id: CallId)
    | Restart(at: real, wall: real)

  const START := World(FRESH, None, 0.0, {}, {}, None, [])

  /** The monotonic clock does not go back within a process. */
  predicate Enabled(w: World, step: Step) {
    match step
    case Arrive(id, at) => id !in w.calls && w.now <= at
    case Finish(id, _, at, _) => id in w.calls && w.now <= at
    case Cancel(id) => id in w.calls
    case Restart(_, _) => true
  }

  predicate Admission(s: Settings, w: World, step: Step) {
    step.Arrive? && Admits(s, w.circuit, step.at)
  }

  function Next(s: Settings, w: World, step: Step): World {
    match step
    case Arrive(id, at) =>
      if !Admits(s, w.circuit, at) then w.(now := at)
      else if w.circuit.state == Closed then w.(now := at, calls := w.calls + {id})
      else w.(circuit := Admitted(w.circuit), now := at, calls := w.calls + {id}, trials := w.trials + {id}, holder := Some(id))
    case Finish(id, ok, at, wall) =>
      var c := if ok then Succeeded(w.circuit) else Failed(s, w.circuit, at, wall);
      w.(circuit := c, saved := Some(Snapshot(c)), now := at, calls := w.calls - {id}, trials := w.trials - {id},
         holder := None, outcomes := w.outcomes + [ok])
    case Cancel(id) => w.(calls := w.calls - {id}, trials := w.trials - {id})
    case Restart(at, wall) =>
      w.(circuit := Restored(s, w.saved, at, wall), now := at, calls := {}, trials := {}, holder := None)
  }

  /** The world after the first `n` steps. */
  function After(s: Settings, w: World, steps: seq<Step>, n: nat): World
    requires n <= |steps|
  {
    if n == 0 then w else Next(s, After(s, w, steps, n - 1), steps[n - 1])
  }

  predicate Legal(s: Settings, w: World, steps: seq<Step>, n: nat)
    requires n <= |steps|
  {
    n > 0 ==> Legal(s, w, steps, n - 1) && Enabled(After(s, w, steps, n - 1), steps[n - 1])
  }

  /** The length of the run of failures at the end of the history. */
  function TrailingFailures(outcomes: seq<bool>): nat {
    if outcomes == [] || outcomes[|outcomes| - 1] then 0 else 1 + TrailingFailures(outcomes[..|outcomes| - 1])
  }

  predicate Inv(s: Settings, w: World) {
    var c := w.circuit;
    && c.failureCount == TrailingFailures(w.outcomes)
    && (c.state == Closed <==> c.failureCount < s.failureThreshold)
    && (c.state == Closed ==> c.openedAtWallclock == None)
    && (w.saved == None <==> w.outcomes == [])
    && (w.saved.Some? ==>
          var r := w.saved.value;
          && r.failureCount == c.failureCount
          && r.state != HalfOpen
          && (r.state == Closed <==> c.state == Closed)
          && (r.openedAt.Some? <==> r.state == Open)
          && (c.state == Open ==> c.openedAtWallclock == r.openedAt))
    && (c.state == Open ==> !c.halfOpenInFlight) && (c.state == Closed ==> !c.halfOpenInFlight)
    && (c.halfOpenInFlight <==> w.holder.Some?)
    && (w.holder.Some? && w.holder.value in w.calls ==> w.holder.value in w.trials)
    && w.trials <= w.calls
  }

  lemma StepKeepsInv(s: Settings, w: World, step: Step)
    requires Acceptable(s) && Inv(s, w) && Enabled(w, step)
    ensures Inv(s, Next(s, w, step))
  {
    if step.Finish? {
      assert (w.outcomes + [step.ok])[..|w.outcomes|] == w.outcomes;
    }
  }

  lemma {:induction false} RunKeepsInv(s: Settings, w: World, steps: seq<Step>, n: nat)
    requires Acceptable(s) && Inv(s, w) && n <= |steps| && Legal(s, w, steps, n)
    ensures Inv(s, After(s, w, steps, n))
  {
    hide Inv, Next, Enabled;
    if n > 0 {
      RunKeepsInv(s, w, steps, n - 1);
      StepKeepsInv(s, After(s, w, steps, n - 1), steps[n - 1]);
    }
  }

  /** Over every interleaving and across restarts, the count is the trailing run of failures in order of
      completion and the breaker is closed exactly while that run is short of the threshold. */
  lemma StateIsAFunctionOfHistory(s: Settings, steps: seq<Step>)
    requires Acceptable(s) && Legal(s, START, steps, |steps|)
    ensures var w := After(s, START, steps, |steps|);
            && w.circuit.failureCount == TrailingFailures(w.outcomes)
            && (w.circuit.state == Closed <==> TrailingFailures(w.outcomes) < s.failureThreshold)
  {
    RunKeepsInv(s, START, steps, |steps|);
  }

  /** The store never holds half_open, and holds opened_at exactly when it holds open. */
  lemma StoreHoldsOpenOrClosed(s: Settings, steps: seq<Step>)
    requires Acceptable(s) && Legal(s, START, steps, |steps|)
    ensures var saved := After(s, START, steps, |steps|).saved;
            saved.Some? ==> saved.value.state != HalfOpen && (saved.value.openedAt.Some? <==> saved.value.state == Open)
  {
    RunKeepsInv(s, START, steps, |steps|);
  }

  // The circuit's times, read off the steps.

  /** How the calls ended, in order of completion. */
  function Completions(steps: seq<Step>, n: nat): seq<bool>
    requires n <= |steps|
  {
    if n == 0 then []
    else Completions(steps, n - 1) + if steps[n - 1].Finish? then [steps[n - 1].ok] else []
  }

  /** The wall-clock time of the last completion. */
  function LastWall(steps: seq<Step>, n: nat): Option<real>
    requires n <= |steps|
  {
    if n == 0 then None
    else if steps[n - 1].Finish? then Some(steps[n - 1].wall)
    else LastWall(steps, n - 1)
  }

  /** The time of the last completion on the monotonic clock of the present process; of one in an earlier process
      the wall clock tells how long before the boot it was. */
  function LastFinished(steps: seq<Step>, n: nat): Option<real>
    requires n <= |steps|
  {
    if n == 0 then None
    else
      match steps[n - 1]
      case Finish(_, _, at, _) => Some(at)
      case Restart(at, wall) =>
        var finished := LastWall(steps, n - 1);
        if finished.Some? then Some(at - (wall - finished.value)) else None
      case _ => LastFinished(steps, n - 1)
  }

  /** The circuit's times agree with the steps. */
  predicate Timed(s: Settings, w: World, outcomes: seq<bool>, wall: Option<real>, finished: Option<real>) {
    && w.outcomes == outcomes
    && (w.saved.Some? && w.saved.value.state == Open ==> w.saved.value.openedAt == wall && wall.Some?)
    && (w.circuit.state == Open ==> finished == Some(w.circuit.openedAtMonotonic))
    && (w.circuit.state == HalfOpen ==> finished.Some? && finished.value + s.recoveryTimeout <= w.now)
  }

  lemma StepKeepsTimed(s: Settings, w: World, steps: seq<Step>, n: nat)
    requires Acceptable(s) && n < |steps| && Inv(s, w) && Enabled(w, steps[n])
    requires Timed(s, w, Completions(steps, n), LastWall(steps, n), LastFinished(steps, n))
    ensures Timed(s, Next(s, w, steps[n]), Completions(steps, n + 1), LastWall(steps, n + 1), LastFinished(steps, n + 1))
  {}

  lemma {:induction false} AlwaysTimed(s: Settings, steps: seq<Step>, n: nat)
    requires Acceptable(s) && n <= |steps| && Legal(s, START, steps, n)
    ensures Timed(s, After(s, START, steps, n), Completions(steps, n), LastWall(steps, n), LastFinished(steps, n))
  {
    hide Inv, Next, Enabled, Completions, LastWall, LastFinished, Timed;
    if n == 0 {
      NothingTimed(s, steps);
    } else {
      AlwaysTimed(s, steps, n - 1);
      StartIsSound(s);
      RunKeepsInv(s, START, steps, n - 1);
      StepKeepsTimed(s, After(s, START, steps, n - 1), steps, n - 1);
    }
  }

  lemma NothingTimed(s: Settings, steps: seq<Step>)
    ensures Timed(s, START, Completions(steps, 0), LastWall(steps, 0), LastFinished(steps, 0))
  {}

  lemma StartIsSound(s: Settings)
    requires Acceptable(s)
    ensures Inv(s, START)
  {}

  /** Step `k` is the last completion since the process started. */
  predicate LastFinishSinceBoot(steps: seq<Step>, k: nat, n: nat)
    requires n <= |steps|
  {
    k < n && steps[k].Finish? && forall i :: k < i < n ==> !steps[i].Finish? && !steps[i].Restart?
  }

  lemma {:induction false} LastFinishTells(steps: seq<Step>, k: nat, n: nat)
    requires n <= |steps| && LastFinishSinceBoot(steps, k, n)
    ensures LastFinished(steps, n) == Some(steps[k].at) && LastWall(steps, n) == Some(steps[k].wall)
    ensures Completions(steps, n) != [] && Completions(steps, n)[|Completions(steps, n)| - 1] == steps[k].ok
  {
    if k + 1 < n {
      LastFinishTells(steps, k, n - 1);
    }
  }

  /** A circuit that opened in this process opened at the moment of the last failure, and the record says so. */
  lemma OpenedAtTheLastFailure(s: Settings, steps: seq<Step>, k: nat)
    requires Acceptable(s) && Legal(s, START, steps, |steps|)
    requires LastFinishSinceBoot(steps, k, |steps|) && After(s, START, steps, |steps|).circuit.state == Open
    ensures !steps[k].ok
    ensures var w := After(s, START, steps, |steps|);
            && w.circuit.openedAtMonotonic == steps[k].at
            && w.saved == Some(Saved(Open, TrailingFailures(Completions(steps, |steps|)), Some(steps[k].wall)))
  {
    hide Next, Enabled, Completions, LastWall, LastFinished;
    AlwaysTimed(s, steps, |steps|);
    RunKeepsInv(s, START, steps, |steps|);
    LastFinishTells(steps, k, |steps|);
  }

  // Trials.

  function Admissions(s: Settings, w: World, steps: seq<Step>, n: nat): nat
    requires n <= |steps|
  {
    if n == 0 then 0
    else Admissions(s, w, steps, n - 1) + if Admission(s, After(s, w, steps, n - 1), steps[n - 1]) then 1 else 0
  }

  /** One process, and the breaker half-open all along: one episode. */
  predicate OneEpisode(s: Settings, w: World, steps: seq<Step>, n: nat)
    requires n <= |steps|
  {
    && w.circuit.state == HalfOpen
    && (n > 0 ==> OneEpisode(s, w, steps, n - 1) && !steps[n - 1].Restart? && After(s, w, steps, n).circuit.state == HalfOpen)
  }

  /** An episode admits at most one call, and none once its trial is in flight. */
  lemma {:induction false} OneTrialPerEpisode(s: Settings, w: World, steps: seq<Step>, n: nat)
    requires Acceptable(s) && n <= |steps| && OneEpisode(s, w, steps, n)
    ensures Admissions(s, w, steps, n) == 1 ==> After(s, w, steps, n).circuit.halfOpenInFlight
    ensures Admissions(s, w, steps, n) + (if w.circuit.halfOpenInFlight then 1 else 0) <= 1
    ensures w.circuit.halfOpenInFlight ==> After(s, w, steps, n).circuit.halfOpenInFlight
  {
    if n > 0 {
      OneTrialPerEpisode(s, w, steps, n - 1);
    }
  }

  predicate NoCancellation(steps: seq<Step>) {
    forall i :: 0 <= i < |steps| ==> !steps[i].Cancel?
  }

  lemma {:induction false} HolderRuns(s: Settings, w: World, steps: seq<Step>, n: nat)
    requires Acceptable(s) && Inv(s, w) && n <= |steps| && Legal(s, w, steps, n) && NoCancellation(steps)
    requires w.holder.Some? ==> w.holder.value in w.calls
    ensures var v := After(s, w, steps, n); v.holder.Some? ==> v.holder.value in v.calls
  {
    if n > 0 {
      HolderRuns(s, w, steps, n - 1);
      RunKeepsInv(s, w, steps, n - 1);
    }
  }

  /** When calls end by returning or raising, the flag means that the episode's trial is still running. */
  lemma FlagMeansTrialRunning(s: Settings, steps: seq<Step>)
    requires Acceptable(s) && Legal(s, START, steps, |steps|) && NoCancellation(steps)
    ensures var w := After(s, START, steps, |steps|);
            w.circuit.halfOpenInFlight ==> w.circuit.state == HalfOpen && w.holder.Some? && w.holder.value in w.trials
  {
    RunKeepsInv(s, START, steps, |steps|);
    HolderRuns(s, START, steps, |steps|);
  }

  /** The failures at the end of the history reach the threshold. */
  predicate Tripped(s: Settings, steps: seq<Step>) {
    s.failureThreshold <= TrailingFailures(Completions(steps, |steps|))
  }

  /** recovery_timeout has passed since the last completion. */
  predicate TimedOut(s: Settings, steps: seq<Step>, at: real) {
    LastFinished(steps, |steps|).Some? && LastFinished(steps, |steps|).value + s.recoveryTimeout <= at
  }

  /** No call is in flight, and a circuit that the failures have opened has had its recovery_timeout. */
  predicate Rested(s: Settings, steps: seq<Step>, at: real) {
    var w := After(s, START, steps, |steps|);
    w.calls == {} && w.now <= at && (Tripped(s, steps) ==> TimedOut(s, steps, at))
  }

  /** Step `i` admits the trial of a half-open episode. */
  predicate AdmitsTrial(s: Settings, steps: seq<Step>, i: nat) {
    i < |steps| && steps[i].Arrive? && Admission(s, After(s, START, steps, i), steps[i]) && After(s, START, steps, i).circuit.state != Closed
  }

  /** After step `i` and before step `n` no call completed and the process did not restart. */
  predicate Undecided(steps: seq<Step>, i: nat, n: nat)
    requires n <= |steps|
  {
    forall k :: i < k < n ==> !steps[k].Finish? && !steps[k].Restart?
  }

  lemma HolderSetByTrial(s: Settings, w: World, step: Step)
    requires Enabled(w, step)
    ensures var w' := Next(s, w, step);
            w'.holder.Some? ==>
              || (step.Arrive? && Admission(s, w, step) && w.circuit.state != Closed && w'.holder == Some(step.id))
              || (!step.Finish? && !step.Restart? && w'.holder == w.holder)
  {}

  /** The flag is set by a trial, and nothing has been decided since. */
  lemma {:induction false} HolderHistory(s: Settings, steps: seq<Step>, n: nat)
    requires n <= |steps| && Legal(s, START, steps, n) && After(s, START, steps, n).holder.Some?
    ensures exists i :: 0 <= i < n && AdmitsTrial(s, steps, i) && After(s, START, steps, n).holder == Some(steps[i].id) && Undecided(steps, i, n)
  {
    hide Next, Enabled, Admission;
    var before := After(s, START, steps, n - 1);
    HolderSetByTrial(s, before, steps[n - 1]);
    if AdmitsTrial(s, steps, n - 1) && After(s, START, steps, n).holder == Some(steps[n - 1].id) {
      assert Undecided(steps, n - 1, n);
    } else {
      HolderHistory(s, steps, n - 1);
      var i :| 0 <= i < n - 1 && AdmitsTrial(s, steps, i) && before.holder == Some(steps[i].id) && Undecided(steps, i, n - 1);
      assert Undecided(steps, i, n);
    }
  }

  lemma {:induction false} HolderStays(s: Settings, steps: seq<Step>, i: nat, n: nat)
    requires i < n <= |steps| && AdmitsTrial(s, steps, i) && Undecided(steps, i, n)
    ensures var w := After(s, START, steps, n);
            w.holder == Some(steps[i].id) && w.circuit.state == HalfOpen && w.circuit.halfOpenInFlight
  {
    if i + 1 < n {
      HolderStays(s, steps, i, n - 1);
    }
  }

  lemma {:induction false} GoneWasCancelled(s: Settings, steps: seq<Step>, i: nat, n: nat)
    requires i < n <= |steps| && AdmitsTrial(s, steps, i) && Undecided(steps, i, n)
    requires steps[i].id !in After(s, START, steps, n).calls
    ensures exists j :: i < j < n && steps[j] == Cancel(steps[i].id)
  {
    if i + 1 < n {
      if steps[n - 1] != Cancel(steps[i].id) {
        GoneWasCancelled(s, steps, i, n - 1);
      }
    }
  }

  /** Step `i` admitted a trial, step `j` cancelled it, and nothing has been decided since. */
  predicate TrialCancelled(s: Settings, steps: seq<Step>, i: nat, j: nat) {
    i < j < |steps| && AdmitsTrial(s, steps, i) && steps[j] == Cancel(steps[i].id) && Undecided(steps, i, |steps|)
  }

  /** With no call in flight, the answer to the next one can be read off the steps: it is admitted exactly if the
      failures at the end of the history are short of the threshold, or recovery_timeout has passed since the last
      of them and no trial was cancelled without anything being decided since. */
  lemma AdmittedIff(s: Settings, steps: seq<Step>, at: real)
    requires Acceptable(s) && Legal(s, START, steps, |steps|)
    requires After(s, START, steps, |steps|).calls == {} && After(s, START, steps, |steps|).now <= at
    ensures Admits(s, After(s, START, steps, |steps|).circuit, at) <==>
            !Tripped(s, steps) || (TimedOut(s, steps, at) && !exists i: nat, j: nat :: TrialCancelled(s, steps, i, j))
  {
    hide Next, Enabled, Admission, Completions, LastWall, LastFinished;
    var w := After(s, START, steps, |steps|);
    RunKeepsInv(s, START, steps, |steps|);
    AlwaysTimed(s, steps, |steps|);
    if w.holder.Some? {
      HolderHistory(s, steps, |steps|);
      var i :| 0 <= i < |steps| && AdmitsTrial(s, steps, i) && w.holder == Some(steps[i].id) && Undecided(steps, i, |steps|);
      GoneWasCancelled(s, steps, i, |steps|);
      var j :| i < j < |steps| && steps[j] == Cancel(steps[i].id);
      assert TrialCancelled(s, steps, i, j);
    }
    if i: nat, j: nat :| TrialCancelled(s, steps, i, j) {
      HolderStays(s, steps, i, |steps|);
    }
  }

  /** A rested breaker admits the next call, unless its trial was cancelled and since the trial was admitted
      no call has completed and the process has not restarted. */
  lemma RestedAdmitsIff(s: Settings, steps: seq<Step>, at: real)
    requires Acceptable(s) && Legal(s, START, steps, |steps|) && Rested(s, steps, at)
    ensures Admits(s, After(s, START, steps, |steps|).circuit, at) <==> !exists i: nat, j: nat :: TrialCancelled(s, steps, i, j)
  {
    AdmittedIff(s, steps, at);
    CancelledTrialIsTripped(s, steps);
  }

  lemma CancelledTrialIsTripped(s: Settings, steps: seq<Step>)
    requires Acceptable(s) && Legal(s, START, steps, |steps|)
    ensures (exists i: nat, j: nat :: TrialCancelled(s, steps, i, j)) ==> Tripped(s, steps)
  {
    hide Next, Enabled, Admission, Completions, LastWall, LastFinished, AdmitsTrial;
    RunKeepsInv(s, START, steps, |steps|);
    AlwaysTimed(s, steps, |steps|);
    if i: nat, j: nat :| TrialCancelled(s, steps, i, j) {
      HolderStays(s, steps, i, |steps|);
    }
  }

  /** So the breaker is never wedged when calls end by returning or raising. */
  lemma NeverWedged(s: Settings, steps: seq<Step>, at: real)
    requires Acceptable(s) && Legal(s, START, steps, |steps|) && NoCancellation(steps)
    requires Rested(s, steps, at)
    ensures Admits(s, After(s, START, steps, |steps|).circuit, at)
  {
    RestedAdmitsIff(s, steps, at);
  }

  predicate SameProcess(steps: seq<Step>) {
    forall i :: 0 <= i < |steps| ==> !steps[i].Restart?
  }

  /** But once its trial has been cancelled and no other call is left, it rejects every call until the
      process restarts, however long that takes. */
  lemma {:induction false} CancelledTrialWedges(s: Settings, w: World, steps: seq<Step>, n: nat)
    requires Acceptable(s) && Inv(s, w) && w.calls == {} && w.holder.Some?
    requires n <= |steps| && Legal(s, w, steps, n) && SameProcess(steps)
    ensures Admissions(s, w, steps, n) == 0
    ensures After(s, w, steps, n).circuit == w.circuit && After(s, w, steps, n).calls == {}
  {
    if n > 0 {
      CancelledTrialWedges(s, w, steps, n - 1);
    }
  }

  /** Such a run: a call fails, the circuit opens, and after the timeout the trial is cancelled. */
  lemma WedgedRun(s: Settings) returns (steps: seq<Step>)
    requires Acceptable(s) && s.failureThreshold == 1
    ensures Legal(s, START, steps, |steps|) && TrialCancelled(s, steps, 2, 3) && SameProcess(steps)
    ensures forall i :: 0 <= i < |steps| && steps[i].Finish? ==> steps[i].wall == steps[i].at
    ensures var w := After(s, START, steps, |steps|);
            w.calls == {} && w.holder.Some? && forall at :: !Admits(s, w.circuit, at)
  {
    steps := [Arrive(0, 0.0), Finish(0, false, 0.0, 0.0), Arrive(1, s.recoveryTimeout), Cancel(1)];
    var w0 := After(s, START, steps, 0);
    var w1 := After(s, START, steps, 1);
    assert w1 == Next(s, w0, steps[0]) && w1.calls == {0};
    var w2 := After(s, START, steps, 2);
    assert w2 == Next(s, w1, steps[1]) && w2.calls == {} && w2.circuit.state == Open && w2.circuit.openedAtMonotonic == 0.0;
    var w3 := After(s, START, steps, 3);
    assert w3 == Next(s, w2, steps[2]) && w3.calls == {1};
    assert Legal(s, START, steps, 0) && Legal(s, START, steps, 1) && Legal(s, START, steps, 2) && Legal(s, START, steps, 3);
    assert After(s, START, steps, 4) == Next(s, w3, steps[3]);
  }

  // At most one trial at a time?

  /** Steps in which the call `t` keeps running. */
  predicate Outlives(s: Settings, w: World, steps: seq<Step>, n: nat, t: CallId)
    requires n <= |steps|
  {
    n > 0 ==>
      && Outlives(s, w, steps, n - 1, t)
      && Enabled(After(s, w, steps, n - 1), steps[n - 1])
      && !steps[n - 1].Restart? && steps[n - 1] != Cancel(t) && (steps[n - 1].Finish? ==> steps[n - 1].id != t)
  }

  /** No continuation in which trial `t` keeps running admits another trial beside it. */
  ghost predicate Exclusive(s: Settings, w: World, t: CallId) {
    forall steps: seq<Step> :: Outlives(s, w, steps, |steps|, t) ==> After(s, w, steps, |steps|).trials == {t}
  }

  lemma {:induction false} AloneStaysAlone(s: Settings, w: World, steps: seq<Step>, n: nat, t: CallId)
    requires Inv(s, w) && w.calls == {t} && w.holder == Some(t)
    requires n <= |steps| && Outlives(s, w, steps, n, t)
    ensures var v := After(s, w, steps, n); v.calls == {t} && v.trials == {t} && v.circuit == w.circuit
  {
    if n > 0 {
      AloneStaysAlone(s, w, steps, n - 1, t);
    }
  }

  lemma OvertakenTrial(s: Settings, w: World, t: CallId, other: CallId) returns (steps: seq<Step>)
    requires Acceptable(s) && Inv(s, w) && w.holder == Some(t) && t in w.calls && other in w.calls && other != t
    ensures Outlives(s, w, steps, |steps|, t)
    ensures exists newcomer :: newcomer != t && {t, newcomer} <= After(s, w, steps, |steps|).trials
  {
    var newcomer := UnusedId(w.calls);
    var fails := Finish(other, false, w.now, 0.0);
    var arrives := Arrive(newcomer, w.now + s.recoveryTimeout);
    steps := [fails, arrives];
    var v := Next(s, w, fails);
    assert After(s, w, steps, 1) == v by { assert After(s, w, steps, 0) == w; }
    assert v.circuit.state == Open && v.circuit.openedAtMonotonic == w.now;
    assert After(s, w, steps, 2) == Next(s, v, arrives);
    assert {t, newcomer} <= Next(s, v, arrives).trials;
    assert Outlives(s, w, steps, 1, t);
  }

  lemma UnusedId(ids: set<CallId>) returns (n: CallId)
    ensures forall id :: id in ids ==> id < n
  {
    if ids == {} {
      n := 0;
    } else {
      var some :| some in ids;
      var rest := UnusedId(ids - {some});
      assert forall id :: id in ids ==> id == some || id in ids - {some};
      n := if rest <= some then some + 1 else rest;
    }
  }

  /** A trial is sure to be the only one exactly when no other call is in flight: a call admitted earlier
      that fails meanwhile reopens the circuit, and after the timeout a second trial joins the first. */
  lemma TrialIsExclusiveIff(s: Settings, steps: seq<Step>, t: CallId)
    requires Acceptable(s) && Legal(s, START, steps, |steps|)
    requires After(s, START, steps, |steps|).holder == Some(t) && t in After(s, START, steps, |steps|).calls
    ensures Exclusive(s, After(s, START, steps, |steps|), t) <==> After(s, START, steps, |steps|).calls == {t}
  {
    var w := After(s, START, steps, |steps|);
    RunKeepsInv(s, START, steps, |steps|);
    if w.calls == {t} {
      forall more: seq<Step> | Outlives(s, w, more, |more|, t) ensures After(s, w, more, |more|).trials == {t} {
        AloneStaysAlone(s, w, more, |more|, t);
      }
    } else {
      var other :| other in w.calls && other != t;
      var more := OvertakenTrial(s, w, t, other);
    }
  }

  /** A run with two trials at once: a call admitted while closed outlives the failure that opens the circuit,
      and its own failure, during the first trial, leads to the second. */
  lemma OvertakenRun(s: Settings) returns (steps: seq<Step>)
    requires Acceptable(s) && s.failureThreshold == 1
    ensures Legal(s, START, steps, |steps|) && NoCancellation(steps) && SameProcess(steps)
    ensures After(s, START, steps, |steps|).trials == {2, 3}
  {
    var t := s.recoveryTimeout;
    steps := [Arrive(0, 0.0), Arrive(1, 0.0), Finish(0, false, 0.0, 0.0), Arrive(2, t), Finish(1, false, t, t), Arrive(3, t + t)];
    var w1 := After(s, START, steps, 1);
    assert After(s, START, steps, 0) == START && w1 == Next(s, START, steps[0]) && w1.calls == {0};
    var w2 := After(s, START, steps, 2);
    assert w2 == Next(s, w1, steps[1]) && w2.calls == {0, 1} && w2.trials == {};
    var w3 := After(s, START, steps, 3);
    assert w3 == Next(s, w2, steps[2]) && w3.calls == {1} && w3.circuit.state == Open && w3.circuit.openedAtMonotonic == 0.0;
    var w4 := After(s, START, steps, 4);
    assert w4 == Next(s, w3, steps[3]) && w4.calls == {1, 2} && w4.trials == {2} && w4.circuit.state == HalfOpen;
    var w5 := After(s, START, steps, 5);
    assert w5 == Next(s, w4, steps[4]) && w5.calls == {2} && w5.circuit.state == Open && w5.circuit.openedAtMonotonic == t;
    assert Legal(s, START, steps, 0) && Legal(s, START, steps, 1) && Legal(s, START, steps, 2);
    assert Legal(s, START, steps, 3) && Legal(s, START, steps, 4) && Legal(s, START, steps, 5);
    assert After(s, START, steps, 6) == Next(s, w5, steps[5]);
  }

  // Rate limit.

  /** One process that stays not Closed throughout. */
  predicate NeverClosed(s: Settings, w: World, steps: seq<Step>, n: nat)
    requires n <= |steps|
  {
    && w.circuit.state != Closed
    && (n > 0 ==> NeverClosed(s, w, steps, n - 1) && !steps[n - 1].Restart? && After(s, w, steps, n).circuit.state != Closed)
  }

  function LastAdmission(s: Settings, w: World, steps: seq<Step>, n: nat): real
    requires n <= |steps|
  {
    if n == 0 then w.now
    else if Admission(s, After(s, w, steps, n - 1), steps[n - 1]) then steps[n - 1].at
    else LastAdmission(s, w, steps, n - 1)
  }

  /** The least time `count` admissions span. */
  function Spread(count: nat, timeout: real): real {
    if count == 0 then 0.0 else (count as real - 1.0) * timeout
  }

  lemma OneMore(count: nat, timeout: real)
    requires 0 < count
    ensures Spread(count + 1, timeout) == Spread(count, timeout) + timeout
  {
    assert ((count + 1) as real - 1.0) * timeout == (count as real - 1.0) * timeout + timeout;
  }

  lemma SpreadBounds(count: nat, timeout: real, length: real)
    requires 0.0 < timeout && 0.0 <= length && Spread(count, timeout) <= length
    ensures count as real <= 1.0 + length / timeout
  {
    Quotient(if 0 < count then count as real - 1.0 else 0.0, timeout, length);
  }

  lemma Quotient(x: real, y: real, z: real)
    requires 0.0 < y && x * y <= z
    ensures x <= z / y
  {}

  /** `count` admissions since `start`, the last of them at `last`, and where that leaves the breaker. */
  predicate Spaced(s: Settings, start: real, v: World, count: nat, last: real) {
    && start <= last <= v.now
    && Spread(count, s.recoveryTimeout) <= last - start
    && (0 < count ==>
          && (v.circuit.state == Open ==> last <= v.circuit.openedAtMonotonic)
          && (v.circuit.state == HalfOpen ==> v.circuit.halfOpenInFlight))
  }

  lemma StepKeepsSpacing(s: Settings, start: real, v: World, step: Step, count: nat, last: real)
    requires Acceptable(s) && Spaced(s, start, v, count, last)
    requires Enabled(v, step) && !step.Restart? && v.circuit.state != Closed && Next(s, v, step).circuit.state != Closed
    ensures if Admission(s, v, step)
            then Spaced(s, start, Next(s, v, step), count + 1, step.at)
            else Spaced(s, start, Next(s, v, step), count, last)
  {
    if Admission(s, v, step) {
      if count == 0 {
        assert Spread(1, s.recoveryTimeout) == 0.0;
      } else {
        OneMore(count, s.recoveryTimeout);
      }
    }
  }

  lemma {:induction false} AdmissionsAreSpaced(s: Settings, w: World, steps: seq<Step>, n: nat)
    requires Acceptable(s) && n <= |steps| && Legal(s, w, steps, n) && NeverClosed(s, w, steps, n)
    ensures Spaced(s, w.now, After(s, w, steps, n), Admissions(s, w, steps, n), LastAdmission(s, w, steps, n))
  {
    hide Next, Admission, Enabled;
    if n > 0 {
      AdmissionsAreSpaced(s, w, steps, n - 1);
      StepKeepsSpacing(s, w.now, After(s, w, steps, n - 1), steps[n - 1], Admissions(s, w, steps, n - 1), LastAdmission(s, w, steps, n - 1));
    }
  }

  /** While not closed, a stretch of length L admits at most 1 + L / recovery_timeout calls, late finishers
      or not. */
  lemma RateLimitWhileNotClosed(s: Settings, w: World, steps: seq<Step>)
    requires Acceptable(s) && 0.0 < s.recoveryTimeout
    requires Legal(s, w, steps, |steps|) && NeverClosed(s, w, steps, |steps|)
    ensures var length := After(s, w, steps, |steps|).now - w.now;
            Admissions(s, w, steps, |steps|) as real <= 1.0 + length / s.recoveryTimeout
  {
    hide After, Admissions, LastAdmission, Legal, NeverClosed, Spread;
    AdmissionsAreSpaced(s, w, steps, |steps|);
    SpreadBounds(Admissions(s, w, steps, |steps|), s.recoveryTimeout, After(s, w, steps, |steps|).now - w.now);
  }
}
