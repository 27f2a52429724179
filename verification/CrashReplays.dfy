/** What boots do to the replay set in arbitrary runs, with anything else going on. */
module CrashReplays {
  import opened Options
  import opened Sequences
  import opened Intents
  import opened DurableOperations
  import opened ReplayPasses
  import opened CrashRecovery
  import opened CrashTheorems

  /** With max_attempts fixed, executions that come to their last journal write are at most that many, and the
      one that makes them that many settles the intent: `limit - failures` is what is left. */
  lemma ExecutionsAreBounded(ws: seq<World>, steps: seq<Step>, i: nat, operation: string, limit: nat, id: IntentId)
    requires Behaviour(ws, steps) && i < |ws| && 1 <= limit
    requires forall k :: 0 <= k < |ws| ==> LimitIs(ws[k], operation, limit)
    requires id in ws[i].table.rows && ws[i].table.rows[id].request.operation == operation
    ensures id in ws[i].audits
    ensures var row, a := ws[i].table.rows[id], ws[i].audits[id];
            && a.failures + a.completions <= limit
            && (a.failures + a.completions == limit ==> row.status == Completed || row.status == Failed)
            && (row.status in UNFINISHED ==> a.completions == 0 && a.failures < limit)
  {
    hide Reached;
    InvAlways(ws, steps, i);
    BoundAlways(ws, steps, i, operation, limit);
    assert IntentOk(ws[i], id) && Bounded(LocalOf(ws[i], id), limit);
  }

  // No live retry.

  /** Unfinished, and nothing is executing it, in a process that has started. */
  predicate Dormant(w: World, id: IntentId) {
    w.mode == Serving && id in w.table.rows && id !in w.running && w.table.rows[id].status in UNFINISHED
  }

  /** Still dormant, with the same row and history, and not run in between. */
  predicate StillDormant(w: World, w': World, id: IntentId) {
    && Dormant(w, id) && Dormant(w', id)
    && w'.table.rows[id] == w.table.rows[id]
    && id in w.audits && id in w'.audits && w'.audits[id] == w.audits[id]
    && w.calls <= w'.calls
    && forall k :: |w.calls| <= k < |w'.calls| ==> w'.calls[k].id != id
  }

  lemma DormantOwnStep(w: World, s: Step, id: IntentId)
    requires Inv(w) && Enabled(w, s) && Subject(s).Some? && Dormant(w, id)
    ensures StillDormant(w, DoOwn(w, s), id)
  {
    assert IntentOk(w, id);
    SettledOwnStep(w, s, id);
  }

  lemma DormantWhenSame(w: World, w': World, id: IntentId)
    requires SameFor(w, w', id) && w'.calls == w.calls && w'.mode == w.mode && id in w.audits && Dormant(w, id)
    ensures StillDormant(w, w', id)
  {}

  lemma DormantRecord(w: World, s: Step, id: IntentId)
    requires Inv(w) && Enabled(w, s) && s.Record? && Dormant(w, id)
    ensures SameFor(w, DoRecord(w, s.id, s.request, s.now), id)
  {
    hide CallsOk, QueueOk, Accounted, InStep;
    assert IntentOk(w, id);
  }

  lemma DormantPrune(w: World, cutoff: int, id: IntentId)
    requires Dormant(w, id)
    ensures SameFor(w, DoPrune(w, cutoff), id)
  {}

  lemma DormantOtherStep(w: World, s: Step, id: IntentId)
    requires Inv(w) && Enabled(w, s) && Subject(s) == None && s != Crash && Dormant(w, id)
    ensures StillDormant(w, Next(w, s), id)
  {
    hide CallsOk, QueueOk, Accounted, InStep, Table.Valid;
    assert IntentOk(w, id);
    if s.Record? {
      DormantRecord(w, s, id);
    } else if s.Prune? {
      DormantPrune(w, s.cutoff, id);
    }
    DormantWhenSame(w, Next(w, s), id);
  }

  lemma DormantThrough(u: World, v: World, w: World, id: IntentId)
    requires StillDormant(u, v, id) && StillDormant(v, w, id)
    ensures StillDormant(u, w, id)
  {
    forall k | |u.calls| <= k < |w.calls| ensures w.calls[k].id != id {
      if k < |v.calls| { assert w.calls[k] == v.calls[k]; }
    }
  }

  lemma DormantStep(u: World, v: World, s: Step, id: IntentId)
    requires Inv(v) && Enabled(v, s) && s != Crash && StillDormant(u, v, id)
    ensures StillDormant(u, Next(v, s), id)
  {
    if Subject(s).Some? { DormantOwnStep(v, s, id); } else { DormantOtherStep(v, s, id); }
    DormantThrough(u, v, Next(v, s), id);
  }

  lemma DormantBySelf(w: World, id: IntentId)
    requires Inv(w) && Dormant(w, id)
    ensures StillDormant(w, w, id)
  {
    assert IntentOk(w, id);
  }

  /** Once a process serves, an unfinished intent that nothing executes stays as it is until the next boot: no
      later call takes it up again. */
  lemma {:induction false} NoLiveRetry(ws: seq<World>, steps: seq<Step>, i: nat, j: nat, id: IntentId)
    requires Behaviour(ws, steps) && i <= j < |ws| && Dormant(ws[i], id)
    requires forall k :: i <= k < j ==> steps[k] != Crash
    ensures StillDormant(ws[i], ws[j], id)
  {
    hide Inv, Next, Enabled, Reached, Dormant, StillDormant;
    if i < j {
      NoLiveRetry(ws, steps, i, j - 1, id);
      StepAt(ws, steps, j - 1);
      DormantStep(ws[i], ws[j - 1], steps[j - 1], id);
    } else {
      InvAlways(ws, steps, i);
      DormantBySelf(ws[i], id);
    }
  }

  // The startup replay.

  /** A replay began with step `i` and has neither finished nor crashed before step `n`. */
  predicate InPass(steps: seq<Step>, i: nat, n: nat) {
    && i < n <= |steps| && steps[i] == BeginReplay
    && forall k :: i < k < n ==> steps[k] != Crash && steps[k] != FinishReplay
  }

  /** Nor was it given up: neither it nor the body it was running was cancelled. */
  predicate NotAbandoned(steps: seq<Step>, i: nat, n: nat)
    requires n <= |steps|
  {
    forall k :: i < k < n ==> steps[k] != AbandonReplay && !steps[k].Cancel?
  }

  function HeadTaken(w: World, s: Step): seq<Intent> {
    if s == ReplayNext && w.mode.Replaying? && w.mode.queue != [] then [w.mode.queue[0]] else []
  }

  /** The intents taken from the queue by steps `i` up to `n`, in order. */
  function Taken(ws: seq<World>, steps: seq<Step>, i: nat, n: nat): seq<Intent>
    requires n <= |steps| <= |ws|
  {
    if n <= i then [] else Taken(ws, steps, i, n - 1) + HeadTaken(ws[n - 1], steps[n - 1])
  }

  /** The intents among them that had a handler at that moment. */
  function Launched(ws: seq<World>, steps: seq<Step>, i: nat, n: nat): seq<IntentId>
    requires n <= |steps| <= |ws|
  {
    if n <= i then []
    else
      var head := HeadTaken(ws[n - 1], steps[n - 1]);
      Launched(ws, steps, i, n - 1) + if head == [] then [] else HandlerFor(ws[n - 1].registry, head[0])
  }

  lemma PlaceLaunchesNone(w: World, s: Step)
    requires Sane(w) && Enabled(w, s) && Subject(s).Some?
    ensures DoOwn(w, s).running.Keys <= w.running.Keys
  {
    hide Advance, Table.Valid;
  }

  lemma HeadHasNoExecutorBefore(w: World)
    requires w.running == map[] && Enabled(w, ReplayNext)
    ensures var head, registry := w.mode.queue[0], w.registry;
            DoReplayNext(w).running == if head.request.operation in registry
                                       then map[head.id := Executor(head, registry[head.request.operation], 0, Called)]
                                       else map[]
  {}

  /** Taking an intent from the queue starts one executor on it if it has a handler, with nothing else running;
      during a replay no other step starts any. */
  lemma OnlyReplayNextLaunches(ws: seq<World>, steps: seq<Step>, k: nat)
    requires Behaviour(ws, steps) && k < |steps| && ws[k].mode.Replaying? && steps[k] != Crash
    ensures steps[k] != ReplayNext ==> ws[k + 1].running.Keys <= ws[k].running.Keys
    ensures steps[k] == ReplayNext ==>
              && ws[k].mode.queue != [] && ws[k].running == map[]
              && var head, registry := ws[k].mode.queue[0], ws[k].registry;
                 ws[k + 1].running == if head.request.operation in registry
                                      then map[head.id := Executor(head, registry[head.request.operation], 0, Called)]
                                      else map[]
  {
    hide Reached, Inv, Sane, DoOwn, DoReplayNext, DoRecord, Table.Valid;
    StepAt(ws, steps, k);
    SaneByInv(ws[k]);
    if Subject(steps[k]).Some? {
      PlaceLaunchesNone(ws[k], steps[k]);
    } else if steps[k] == ReplayNext {
      HeadHasNoExecutorBefore(ws[k]);
    }
  }

  lemma QueueStep(w: World, s: Step)
    requires Inv(w) && Enabled(w, s) && w.mode.Replaying? && s != Crash && s != FinishReplay && s != AbandonReplay && !s.Cancel?
    ensures Next(w, s).mode.Replaying?
    ensures HeadTaken(w, s) + Next(w, s).mode.queue == w.mode.queue
  {
    hide Inv, Accounted, InStep;
    assert s == ReplayNext ==> [w.mode.queue[0]] + w.mode.queue[1..] == w.mode.queue;
  }

  lemma QueueAtBegin(w: World)
    requires Sane(w) && Enabled(w, BeginReplay)
    ensures Next(w, BeginReplay).mode == Replaying(w.table.Select(UNFINISHED))
    ensures HeadTaken(w, BeginReplay) == []
  {}

  /** What has been taken and what is queued is the replay set as the pass found it. */
  lemma {:induction false} TakenThenQueued(ws: seq<World>, steps: seq<Step>, i: nat, n: nat)
    requires Behaviour(ws, steps) && InPass(steps, i, n) && NotAbandoned(steps, i, n)
    ensures Sane(ws[i])
    ensures ws[n].mode.Replaying? && Taken(ws, steps, i, n) + ws[n].mode.queue == ws[i].table.Select(UNFINISHED)
  {
    hide Inv, Next, Enabled, Reached, HeadTaken, Sane;
    StepAt(ws, steps, n - 1);
    SaneByInv(ws[n - 1]);
    if n == i + 1 {
      QueueAtBegin(ws[i]);
      assert Taken(ws, steps, i, i) == [];
    } else {
      TakenThenQueued(ws, steps, i, n - 1);
      QueueStep(ws[n - 1], steps[n - 1]);
      var before, head := Taken(ws, steps, i, n - 1), HeadTaken(ws[n - 1], steps[n - 1]);
      assert (before + head) + ws[n].mode.queue == before + (head + ws[n].mode.queue);
    }
  }

  lemma {:induction false} HandlersForPrefix(registry: Registry, xs: seq<Intent>, ys: seq<Intent>, n: nat)
    requires n <= |xs|
    ensures HandlersFor(registry, xs + ys, n) == HandlersFor(registry, xs, n)
  {
    if n > 0 {
      HandlersForPrefix(registry, xs, ys, n - 1);
    }
  }

  lemma HandlersForOneMore(registry: Registry, xs: seq<Intent>, x: Intent)
    ensures HandlersFor(registry, xs + [x], |xs + [x]|) == HandlersFor(registry, xs, |xs|) + HandlerFor(registry, x)
  {
    HandlersForPrefix(registry, xs, [x], |xs|);
  }

  lemma HeadIsOne(w: World, s: Step)
    ensures var head := HeadTaken(w, s); head == [] || head == [head[0]]
  {}

  lemma {:induction false} LaunchedAreHandlers(ws: seq<World>, steps: seq<Step>, i: nat, n: nat, registry: Registry)
    requires n <= |steps| <= |ws| && forall k :: i <= k < n ==> ws[k].registry == registry
    ensures Launched(ws, steps, i, n) == HandlersFor(registry, Taken(ws, steps, i, n), |Taken(ws, steps, i, n)|)
  {
    hide HandlerFor, HandlersFor, HeadTaken;
    if i < n {
      LaunchedAreHandlers(ws, steps, i, n - 1, registry);
      var before, head := Taken(ws, steps, i, n - 1), HeadTaken(ws[n - 1], steps[n - 1]);
      HeadIsOne(ws[n - 1], steps[n - 1]);
      assert before + [] == before;
      if head != [] {
        HandlersForOneMore(registry, before, head[0]);
      }
    } else {
      NoHandlers(registry);
    }
  }

  lemma NoHandlers(registry: Registry)
    ensures HandlersFor(registry, [], 0) == []
  {}

  lemma AbandonsStep(w: World, s: Step)
    requires Inv(w) && Enabled(w, s) && s != Crash
    ensures w.mode.Replaying? && (s == AbandonReplay || s.Cancel?) ==> Next(w, s).mode == Abandoned
    ensures w.mode == Abandoned ==>
              && Next(w, s).mode == Abandoned && Next(w, s).running.Keys <= w.running.Keys
              && HeadTaken(w, s) == [] && s != FinishReplay && !s.Record?
    ensures w.mode.Replaying? ==> Next(w, s).mode.Replaying? || s == FinishReplay || s == AbandonReplay || s.Cancel?
  {
    hide Inv, Table.Valid, Advance;
    SaneByInv(w);
    if Subject(s).Some? {
      PlaceLaunchesNone(w, s);
    }
  }

  /** A cancelled replay takes no other intent and the process starts nothing more: it does not get to serve. */
  lemma {:induction false} AbandonedForGood(ws: seq<World>, steps: seq<Step>, i: nat, j: nat)
    requires Behaviour(ws, steps) && i < j < |ws| && ws[i].mode.Replaying?
    requires steps[i] == AbandonReplay || steps[i].Cancel?
    requires forall k :: i <= k < j ==> steps[k] != Crash
    ensures ws[j].mode == Abandoned && ws[j].running.Keys <= ws[i + 1].running.Keys
    ensures Taken(ws, steps, i + 1, j) == []
    ensures j < |steps| ==> steps[j] != FinishReplay && !steps[j].Record?
  {
    hide Inv, Next, Enabled, Reached, HeadTaken;
    StepAt(ws, steps, j - 1);
    AbandonsStep(ws[j - 1], steps[j - 1]);
    if i + 1 < j {
      AbandonedForGood(ws, steps, i, j - 1);
    }
    if j < |steps| {
      StepAt(ws, steps, j);
      if steps[j] != Crash { AbandonsStep(ws[j], steps[j]); }
    }
  }

  lemma {:induction false} ReplayingUntilAbandoned(ws: seq<World>, steps: seq<Step>, i: nat, n: nat)
    requires Behaviour(ws, steps) && InPass(steps, i, n)
    ensures ws[n].mode.Replaying? || ws[n].mode == Abandoned
    ensures ws[n].mode.Replaying? ==> NotAbandoned(steps, i, n)
  {
    hide Inv, Next, Enabled, Reached, HeadTaken;
    StepAt(ws, steps, n - 1);
    if n == i + 1 {
      InvAlways(ws, steps, i);
      SaneByInv(ws[i]);
      QueueAtBegin(ws[i]);
    } else {
      ReplayingUntilAbandoned(ws, steps, i, n - 1);
      AbandonsStep(ws[n - 1], steps[n - 1]);
    }
  }

  lemma OwnStepMode(w: World, s: Step)
    requires Sane(w) && Enabled(w, s) && Subject(s).Some?
    ensures DoOwn(w, s).mode == if s.Cancel? && w.mode.Replaying? then Abandoned else w.mode
  {
    hide Advance, Table.Valid;
  }

  lemma ServingStep(w: World, s: Step)
    requires Inv(w) && Enabled(w, s)
    ensures Sane(w)
    ensures Next(w, s).mode == Serving <==> (w.mode == Serving && s != Crash) || s == FinishReplay || s == SkipRecovery
    ensures s == FinishReplay ==> w.mode == Replaying([]) && w.running == map[]
    ensures s == SkipRecovery ==> w.mode == Loading
    ensures s.Record? ==> w.mode == Serving
  {
    hide Inv, Sane, Table.Valid, DoOwn;
    SaneByInv(w);
    if Subject(s).Some? {
      OwnStepMode(w, s);
    }
  }

  /** Since step `i`, at which recovery was over, the process has not crashed. */
  predicate ServesSince(steps: seq<Step>, i: nat, n: nat)
    requires n <= |steps|
  {
    i < n && (steps[i] == FinishReplay || steps[i] == SkipRecovery) && forall k :: i < k < n ==> steps[k] != Crash
  }

  predicate RecoveryOver(steps: seq<Step>, n: nat)
    requires n <= |steps|
  {
    exists i :: 0 <= i < n && ServesSince(steps, i, n)
  }

  /** A process serves live calls exactly once its replay has finished, or was switched off. */
  lemma {:induction false} ServesIff(ws: seq<World>, steps: seq<Step>, n: nat)
    requires Behaviour(ws, steps) && n <= |steps|
    ensures ws[n].mode == Serving <==> RecoveryOver(steps, n)
    ensures n < |steps| && steps[n].Record? ==> RecoveryOver(steps, n)
  {
    hide Inv, Next, Enabled, Reached, RecoveryOver;
    if n == 0 {
      LoadsFirst(ws, steps);
    } else {
      ServesIff(ws, steps, n - 1);
      StepAt(ws, steps, n - 1);
      ServingStep(ws[n - 1], steps[n - 1]);
      ServesSinceStep(steps, n - 1);
    }
    if n < |steps| {
      StepAt(ws, steps, n);
      ServingStep(ws[n], steps[n]);
    }
  }

  lemma LoadsFirst(ws: seq<World>, steps: seq<Step>)
    requires Behaviour(ws, steps)
    ensures ws[0].mode == Loading && !RecoveryOver(steps, 0)
  {
    ReachedBefore(ws, steps, 0, |steps|);
  }

  lemma ServesSinceStep(steps: seq<Step>, n: nat)
    requires n < |steps|
    ensures RecoveryOver(steps, n + 1) <==>
            (RecoveryOver(steps, n) && steps[n] != Crash) || steps[n] == FinishReplay || steps[n] == SkipRecovery
  {
    if RecoveryOver(steps, n) && steps[n] != Crash {
      var i :| 0 <= i < n && ServesSince(steps, i, n);
      assert ServesSince(steps, i, n + 1);
    }
    if steps[n] == FinishReplay || steps[n] == SkipRecovery {
      assert ServesSince(steps, n, n + 1);
    }
    if RecoveryOver(steps, n + 1) {
      var i :| 0 <= i < n + 1 && ServesSince(steps, i, n + 1);
      if i < n {
        assert ServesSince(steps, i, n) && steps[n] != Crash;
      }
    }
  }

  lemma NothingQueued(w: World)
    requires Enabled(w, FinishReplay)
    ensures w.mode.Replaying? && w.mode.queue == []
  {}

  /** A replay that finishes has taken every intent that was unfinished when it began, each once and oldest
      first, and given each one that has a handler its executor, whichever bodies and journal operations failed
      on the way. */
  lemma ReplayIsComplete(ws: seq<World>, steps: seq<Step>, i: nat, j: nat)
    requires Behaviour(ws, steps) && j < |steps| && InPass(steps, i, j) && steps[j] == FinishReplay
    ensures ws[i].table.Valid()
    ensures Taken(ws, steps, i, j) == ws[i].table.Select(UNFINISHED)
    ensures Distinct(Due(ws[i].table, ws[i].registry))
    ensures (forall k :: i <= k < j ==> ws[k].registry == ws[i].registry) ==>
              Launched(ws, steps, i, j) == Due(ws[i].table, ws[i].registry)
  {
    hide Inv, Next, Enabled, Reached, Due, Launched, Taken;
    StepAt(ws, steps, j);
    NothingQueued(ws[j]);
    ReplayingUntilAbandoned(ws, steps, i, j);
    TakenThenQueued(ws, steps, i, j);
    assert Taken(ws, steps, i, j) + [] == Taken(ws, steps, i, j);
    HandlersAreDue(ws[i].table, ws[i].registry);
    if forall k :: i <= k < j ==> ws[k].registry == ws[i].registry {
      LaunchedAreHandlers(ws, steps, i, j, ws[i].registry);
    }
  }
}
