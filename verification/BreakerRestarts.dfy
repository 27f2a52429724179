/** A breaker restored from its last record behaves as if the process had not restarted. */
module BreakerRestarts {
  import opened Options
  import opened CircuitBreakers
  import opened BreakerRuns

  /** In this process the wall clock is the monotonic clock plus `offset`; what is stored and what is
      remembered of the opening agree with that. */
  predicate ClocksAgree(s: Settings, w: World, offset: real) {
    && (w.circuit.state == Open ==> w.circuit.openedAtWallclock == Some(w.circuit.openedAtMonotonic + offset))
    && (w.circuit.state == HalfOpen ==>
          w.saved.Some? && w.saved.value.openedAt.Some? &&
          s.recoveryTimeout <= w.now + offset - w.saved.value.openedAt.value)
  }

  predicate Together(step: Step, offset: real) {
    (step.Finish? ==> step.wall == step.at + offset) && !step.Restart?
  }

  lemma ClocksAgreeAfterBoot(s: Settings, w: World, at: real, wall: real)
    requires Acceptable(s) && Inv(s, w)
    ensures ClocksAgree(s, Next(s, w, Restart(at, wall)), wall - at)
  {}

  lemma StepKeepsClocks(s: Settings, w: World, step: Step, offset: real)
    requires Acceptable(s) && Inv(s, w) && Enabled(w, step) && Together(step, offset)
    requires ClocksAgree(s, w, offset)
    ensures ClocksAgree(s, Next(s, w, step), offset)
  {}

  /** Since the last boot, whatever came before it. */
  lemma {:induction false} ClocksAgreeAlways(s: Settings, w: World, steps: seq<Step>, n: nat, offset: real)
    requires Acceptable(s) && Inv(s, w) && n <= |steps| && Legal(s, w, steps, n)
    requires forall i :: 0 <= i < n ==> Together(steps[i], offset)
    requires ClocksAgree(s, w, offset)
    ensures ClocksAgree(s, After(s, w, steps, n), offset)
  {
    hide Inv, Next, Enabled, ClocksAgree, Together;
    if n > 0 {
      ClocksAgreeAlways(s, w, steps, n - 1, offset);
      RunKeepsInv(s, w, steps, n - 1);
      StepKeepsClocks(s, After(s, w, steps, n - 1), steps[n - 1], offset);
    }
  }

  /** The same step, read on a monotonic clock that is `shift` ahead. */
  function Shifted(step: Step, shift: real): Step {
    match step
    case Arrive(id, at) => Arrive(id, at + shift)
    case Finish(id, ok, at, wall) => Finish(id, ok, at + shift, wall)
    case Cancel(id) => step
    case Restart(at, wall) => Restart(at + shift, wall)
  }

  function AllShifted(steps: seq<Step>, shift: real): (r: seq<Step>)
    ensures |r| == |steps|
  {
    seq(|steps|, i requires 0 <= i < |steps| => Shifted(steps[i], shift))
  }

  /** The restored breaker may already be half-open where the other is open with its timeout elapsed. */
  predicate Ready(s: Settings, a: World, b: World) {
    && a.circuit.state == Open && s.recoveryTimeout <= a.now - a.circuit.openedAtMonotonic
    && b.circuit.state == HalfOpen && !b.circuit.halfOpenInFlight && a.calls == {}
  }

  predicate Alike(s: Settings, a: World, b: World, shift: real) {
    && b.calls == a.calls && b.now == a.now + shift
    && b.saved == a.saved && b.outcomes == a.outcomes
    && b.circuit.failureCount == a.circuit.failureCount
    && (|| Ready(s, a, b)
        || (&& b.circuit.state == a.circuit.state
            && b.circuit.halfOpenInFlight == a.circuit.halfOpenInFlight
            && (a.circuit.state == Open ==> b.circuit.openedAtMonotonic == a.circuit.openedAtMonotonic + shift)))
  }

  lemma StepKeepsAlike(s: Settings, a: World, b: World, step: Step, shift: real)
    requires Acceptable(s) && Inv(s, a) && Inv(s, b) && Alike(s, a, b, shift)
    requires Enabled(a, step) && !step.Restart?
    ensures Enabled(b, Shifted(step, shift))
    ensures Admission(s, a, step) <==> Admission(s, b, Shifted(step, shift))
    ensures Alike(s, Next(s, a, step), Next(s, b, Shifted(step, shift)), shift)
  {}

  lemma {:induction false} RunKeepsAlike(s: Settings, a: World, b: World, steps: seq<Step>, n: nat, shift: real)
    requires Acceptable(s) && Inv(s, a) && Inv(s, b) && Alike(s, a, b, shift)
    requires n <= |steps| && Legal(s, a, steps, n) && forall i :: 0 <= i < n ==> !steps[i].Restart?
    ensures Legal(s, b, AllShifted(steps, shift), n)
    ensures Alike(s, After(s, a, steps, n), After(s, b, AllShifted(steps, shift), n), shift)
  {
    hide Inv, Next, Alike, Enabled, Admission, Acceptable;
    if n > 0 {
      RunKeepsAlike(s, a, b, steps, n - 1, shift);
      RunKeepsInv(s, a, steps, n - 1);
      RunKeepsInv(s, b, AllShifted(steps, shift), n - 1);
      var v, v' := After(s, a, steps, n - 1), After(s, b, AllShifted(steps, shift), n - 1);
      StepKeepsAlike(s, v, v', steps[n - 1], shift);
    }
  }

  lemma RestoredIsAlike(s: Settings, w: World, offset: real, at: real, shift: real)
    requires Acceptable(s) && Inv(s, w) && ClocksAgree(s, w, offset) && w.calls == {} && w.holder == None && w.now <= at
    ensures Alike(s, w.(now := at), Next(s, w, Restart(at + shift, at + offset)), shift)
  {}

  lemma AlikeShows(s: Settings, a: World, b: World, step: Step, shift: real)
    requires Acceptable(s) && Inv(s, a) && Inv(s, b) && Alike(s, a, b, shift)
    requires Enabled(a, step) && !step.Restart?
    ensures Same(s, a, b, step, shift)
  {}

  /** The two breakers take the same decision on the next step and show the same count and record. */
  predicate Same(s: Settings, a: World, b: World, step: Step, shift: real) {
    && Enabled(b, Shifted(step, shift))
    && (Admission(s, a, step) <==> Admission(s, b, Shifted(step, shift)))
    && a.circuit.failureCount == b.circuit.failureCount
    && (a.circuit.state == Closed <==> b.circuit.state == Closed)
    && a.saved == b.saved && a.calls == b.calls && a.outcomes == b.outcomes
  }

  lemma IdleIsSound(s: Settings, w: World, at: real)
    requires Inv(s, w)
    ensures Inv(s, w.(now := at))
  {}

  lemma RestoredStaysAlike(s: Settings, w: World, offset: real, at: real, shift: real, steps: seq<Step>, n: nat)
    requires Acceptable(s) && Inv(s, w) && ClocksAgree(s, w, offset) && w.calls == {} && w.holder == None && w.now <= at
    requires n < |steps| && Legal(s, w.(now := at), steps, n + 1) && forall i :: 0 <= i <= n ==> !steps[i].Restart?
    ensures var b := Next(s, w, Restart(at + shift, at + offset));
            Same(s, After(s, w.(now := at), steps, n), After(s, b, AllShifted(steps, shift), n), steps[n], shift)
  {
    hide Inv, Next, Alike, Admission, Acceptable, Same, ClocksAgree;
    var a, b := w.(now := at), Next(s, w, Restart(at + shift, at + offset));
    RestoredIsAlike(s, w, offset, at, shift);
    StepKeepsInv(s, w, Restart(at + shift, at + offset));
    IdleIsSound(s, w, at);
    RunKeepsAlike(s, a, b, steps, n, shift);
    RunKeepsInv(s, a, steps, n);
    RunKeepsInv(s, b, AllShifted(steps, shift), n);
    AlikeShows(s, After(s, a, steps, n), After(s, b, AllShifted(steps, shift), n), steps[n], shift);
  }

  /** Any earlier life of the device, then a boot, then the steps of the present process. */
  function Booted(s: Settings, life: seq<Step>, bootAt: real, bootWall: real): World {
    Next(s, After(s, START, life, |life|), Restart(bootAt, bootWall))
  }

  predicate LegalLife(s: Settings, life: seq<Step>, bootAt: real, bootWall: real, since: seq<Step>) {
    && Legal(s, START, life, |life|)
    && Legal(s, Booted(s, life, bootAt, bootWall), since, |since|)
    && forall i :: 0 <= i < |since| ==> Together(since[i], bootWall - bootAt)
  }

  lemma LifeIsSound(s: Settings, life: seq<Step>, bootAt: real, bootWall: real, since: seq<Step>)
    requires Acceptable(s) && LegalLife(s, life, bootAt, bootWall, since)
    ensures var w := After(s, Booted(s, life, bootAt, bootWall), since, |since|);
            Inv(s, w) && ClocksAgree(s, w, bootWall - bootAt)
  {
    hide Inv, Next, ClocksAgree, Legal, After, Together;
    var earlier := After(s, START, life, |life|);
    StartIsSound(s);
    RunKeepsInv(s, START, life, |life|);
    StepKeepsInv(s, earlier, Restart(bootAt, bootWall));
    ClocksAgreeAfterBoot(s, earlier, bootAt, bootWall);
    ClocksAgreeAlways(s, Booted(s, life, bootAt, bootWall), since, |since|, bootWall - bootAt);
    RunKeepsInv(s, Booted(s, life, bootAt, bootWall), since, |since|);
  }

  /** A way for the present process to go on, up to one more step. */
  predicate GoesOn(s: Settings, a: World, steps: seq<Step>, next: Step) {
    && Legal(s, a, steps, |steps|) && Enabled(After(s, a, steps, |steps|), next)
    && SameProcess(steps) && !next.Restart?
  }

  /** Whatever comes after the moment `at`, a breaker restored then takes the same decisions and shows the same
      count and record as the one that never restarted. */
  ghost predicate Transparent(s: Settings, w: World, offset: real, at: real, shift: real) {
    forall steps: seq<Step>, next: Step :: GoesOn(s, w.(now := at), steps, next) ==>
      var restored := Next(s, w, Restart(at + shift, at + offset));
      Same(s, After(s, w.(now := at), steps, |steps|), After(s, restored, AllShifted(steps, shift), |steps|), next, shift)
  }

  lemma {:induction false} AfterPrefix(s: Settings, w: World, steps: seq<Step>, more: seq<Step>, n: nat)
    requires n <= |steps|
    ensures After(s, w, steps + more, n) == After(s, w, steps, n)
    ensures Legal(s, w, steps + more, n) == Legal(s, w, steps, n)
  {
    hide Next, Enabled;
    if n > 0 {
      AfterPrefix(s, w, steps, more, n - 1);
    }
  }

  lemma ShiftedPrefix(steps: seq<Step>, next: Step, shift: real)
    ensures AllShifted(steps + [next], shift) == AllShifted(steps, shift) + [Shifted(next, shift)]
  {}

  lemma RestoredGoesOnAlike(s: Settings, w: World, offset: real, at: real, shift: real, steps: seq<Step>, next: Step)
    requires Acceptable(s) && Inv(s, w) && ClocksAgree(s, w, offset) && w.calls == {} && w.holder == None && w.now <= at
    requires GoesOn(s, w.(now := at), steps, next)
    ensures var restored := Next(s, w, Restart(at + shift, at + offset));
            Same(s, After(s, w.(now := at), steps, |steps|), After(s, restored, AllShifted(steps, shift), |steps|), next, shift)
  {
    hide Inv, Next, Enabled, Same, ClocksAgree, Acceptable;
    var restored, n := Next(s, w, Restart(at + shift, at + offset)), |steps|;
    AfterPrefix(s, w.(now := at), steps, [next], n);
    ShiftedPrefix(steps, next, shift);
    AfterPrefix(s, restored, AllShifted(steps, shift), [Shifted(next, shift)], n);
    RestoredStaysAlike(s, w, offset, at, shift, steps + [next], n);
  }

  /** A held flag is what a restart clears: the restored breaker admits a call that the other one rejects. */
  lemma HeldFlagShows(s: Settings, w: World, offset: real, at: real, shift: real)
    requires Acceptable(s) && Inv(s, w) && ClocksAgree(s, w, offset) && w.calls == {} && w.holder.Some? && w.now <= at
    ensures var restored := Next(s, w, Restart(at + shift, at + offset));
            && GoesOn(s, w.(now := at), [], Arrive(0, at))
            && !Admission(s, w.(now := at), Arrive(0, at))
            && Admission(s, restored, Arrive(0, at + shift))
    ensures !Transparent(s, w, offset, at, shift)
  {
    var restored := Next(s, w, Restart(at + shift, at + offset));
    assert After(s, w.(now := at), [], 0) == w.(now := at) && After(s, restored, AllShifted([], shift), 0) == restored;
    assert GoesOn(s, w.(now := at), [], Arrive(0, at));
    assert !Same(s, w.(now := at), restored, Arrive(0, at), shift);
  }

  /** Let a process restart at a moment `at` with no call in flight, the wall clock having kept pace with the
      monotonic one since it booted. The restored breaker and the one that never restarted admit and reject the
      same calls, count the same failures and store the same records, for every later sequence of calls and
      times, exactly unless a cancelled trial has left the in-flight flag set. `shift` is how far apart the
      monotonic clocks of the two processes are. */
  lemma RestartIsTransparentIff(
      s: Settings, life: seq<Step>, bootAt: real, bootWall: real, since: seq<Step>, w: World, at: real, shift: real)
    requires Acceptable(s) && LegalLife(s, life, bootAt, bootWall, since)
    requires w == After(s, Booted(s, life, bootAt, bootWall), since, |since|) && w.calls == {} && w.now <= at
    ensures Transparent(s, w, bootWall - bootAt, at, shift) <==> w.holder == None
  {
    hide *;
    LifeIsSound(s, life, bootAt, bootWall, since);
    if w.holder == None {
      TransparentWithoutHolder(s, w, bootWall - bootAt, at, shift);
    } else {
      HeldFlagShows(s, w, bootWall - bootAt, at, shift);
    }
  }

  /** A life that ends with the flag held and no call in flight. */
  lemma HeldFlagHappens(s: Settings) returns (since: seq<Step>, w: World)
    requires Acceptable(s) && s.failureThreshold == 1
    ensures LegalLife(s, [], 0.0, 0.0, since)
    ensures w == After(s, Booted(s, [], 0.0, 0.0), since, |since|) && w.calls == {} && w.holder.Some?
  {
    since := WedgedRun(s);
    assert Booted(s, [], 0.0, 0.0) == START;
    w := After(s, START, since, |since|);
  }

  lemma TransparentWithoutHolder(s: Settings, w: World, offset: real, at: real, shift: real)
    requires Acceptable(s) && Inv(s, w) && ClocksAgree(s, w, offset) && w.calls == {} && w.holder == None && w.now <= at
    ensures Transparent(s, w, offset, at, shift)
  {
    hide Inv, ClocksAgree, Acceptable, Next, Same, GoesOn, After;
    forall steps: seq<Step>, next: Step | GoesOn(s, w.(now := at), steps, next)
      ensures Same(s, After(s, w.(now := at), steps, |steps|),
                   After(s, Next(s, w, Restart(at + shift, at + offset)), AllShifted(steps, shift), |steps|), next, shift)
    {
      RestoredGoesOnAlike(s, w, offset, at, shift, steps, next);
    }
  }
}
