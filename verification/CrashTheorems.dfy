/** What every run of the crash-recovery protocol guarantees. */
module CrashTheorems {
  import opened Options
  import opened Intents
  import opened DurableOperations
  import opened CrashRecovery

  /** `ws[n]` is reached from the first boot by the first `n` steps, one world per step. */
  ghost predicate Reached(ws: seq<World>, steps: seq<Step>, n: nat)
    requires n < |ws| && n <= |steps|
  {
    if n == 0 then ws[0] == START
    else
      && Reached(ws, steps, n - 1)
      && Sane(ws[n - 1]) && Enabled(ws[n - 1], steps[n - 1])
      && ws[n] == Next(ws[n - 1], steps[n - 1])
  }

  /** A run: `ws[i + 1]` follows from `ws[i]` by `steps[i]`. */
  ghost predicate Behaviour(ws: seq<World>, steps: seq<Step>) {
    |ws| == |steps| + 1 && Reached(ws, steps, |steps|)
  }

  lemma {:induction false} ReachedBefore(ws: seq<World>, steps: seq<Step>, i: nat, n: nat)
    requires i <= n < |ws| && n <= |steps| && Reached(ws, steps, n)
    ensures Reached(ws, steps, i)
  {
    hide Next, Enabled, Inv, Sane;
    if i < n {
      ReachedBefore(ws, steps, i, n - 1);
    }
  }

  lemma {:induction false} InvWhenReached(ws: seq<World>, steps: seq<Step>, n: nat)
    requires n < |ws| && n <= |steps| && Reached(ws, steps, n)
    ensures Inv(ws[n])
  {
    hide Inv, Next, Enabled, Sane;
    if n == 0 {
      InvAtStart();
    } else {
      InvWhenReached(ws, steps, n - 1);
      StepKeepsInv(ws[n - 1], steps[n - 1]);
    }
  }

  lemma InvAlways(ws: seq<World>, steps: seq<Step>, i: nat)
    requires Behaviour(ws, steps) && i < |ws|
    ensures Inv(ws[i])
  {
    hide Inv, Next, Enabled, Sane, Reached;
    ReachedBefore(ws, steps, i, |steps|);
    InvWhenReached(ws, steps, i);
  }

  lemma StepAt(ws: seq<World>, steps: seq<Step>, i: nat)
    requires Behaviour(ws, steps) && i < |steps|
    ensures Inv(ws[i]) && Enabled(ws[i], steps[i]) && ws[i + 1] == Next(ws[i], steps[i])
  {
    hide Inv, Next, Enabled, Sane;
    ReachedBefore(ws, steps, i + 1, |steps|);
    InvAlways(ws, steps, i);
  }

  lemma {:induction false} ReachedInLonger(ws: seq<World>, steps: seq<Step>, ws': seq<World>, steps': seq<Step>, n: nat)
    requires n < |ws| && n <= |steps| && ws <= ws' && steps <= steps'
    requires Reached(ws, steps, n)
    ensures Reached(ws', steps', n)
  {
    if n > 0 {
      ReachedInLonger(ws, steps, ws', steps', n - 1);
    }
  }

  /** No run is left out: whatever step is enabled at its end continues it. */
  lemma EveryEnabledStepContinues(ws: seq<World>, steps: seq<Step>, s: Step)
    requires Behaviour(ws, steps) && Enabled(ws[|steps|], s)
    ensures Sane(ws[|steps|]) && Behaviour(ws + [Next(ws[|steps|], s)], steps + [s])
  {
    hide Next, Enabled;
    InvAlways(ws, steps, |steps|);
    ReachedInLonger(ws, steps, ws + [Next(ws[|steps|], s)], steps + [s], |steps|);
  }

  /** A recorded intent is done, given up on, or in the replay set; only done ones are ever deleted. */
  ghost predicate Kept(w: World, id: IntentId) {
    id in w.audits &&
    var a := w.audits[id];
    if id in w.pruned then id !in w.table.rows && 1 <= a.returned
    else
      && id in w.table.rows
      && var row := w.table.rows[id];
         match row.status
         case Completed => 1 <= a.returned
         case Failed => a.exhaustedAt.Some? && a.exhaustedAt.value <= row.attempts && 1 <= a.failures
         case _ => id in PendingIds(w.table)
  }

  lemma NoIntentIsLost(ws: seq<World>, steps: seq<Step>, i: nat, id: IntentId)
    requires Behaviour(ws, steps) && i < |ws| && id in ws[i].recorded
    ensures Kept(ws[i], id)
  {
    var w := ws[i];
    InvAlways(ws, steps, i);
    if id in w.pruned {
      assert PrunedOk(w, id);
    } else {
      assert IntentOk(w, id);
    }
  }

  // Settled intents.

  predicate Settled(w: World, id: IntentId) {
    id in w.pruned || (id in w.table.rows && w.table.rows[id].status in {Completed, Failed})
  }

  /** The row is what it was, unless a completed one has been pruned; nothing ran in between. */
  predicate AsLeft(w: World, w': World, id: IntentId) {
    && id in w.audits && id in w'.audits && w'.audits[id] == w.audits[id]
    && (id in w.recorded ==> id in w'.recorded)
    && (id in w.pruned ==> id in w'.pruned)
    && (id in w.table.rows ==>
          || (id in w'.table.rows && w'.table.rows[id] == w.table.rows[id])
          || (id in w'.pruned && w.table.rows[id].status == Completed))
    && w.calls <= w'.calls
    && forall k :: |w.calls| <= k < |w'.calls| ==> w'.calls[k].id != id
  }

  lemma AsLeftByOthers(w: World, id: IntentId, other: IntentId, l: Local, calls: seq<BodyCall>, mode: Mode)
    requires id in w.audits && id != other
    requires calls == [] || calls == [BodyCall(other, l.row.request)]
    ensures var w' := Place(w, other, l).(calls := w.calls + calls, mode := mode);
            AsLeft(w, w', id) && (Settled(w, id) ==> Settled(w', id))
  {}

  lemma SettledOwnStep(w: World, s: Step, id: IntentId)
    requires Inv(w) && Enabled(w, s) && Subject(s).Some? && Subject(s) != Some(id) && id in w.audits
    ensures AsLeft(w, DoOwn(w, s), id) && (Settled(w, id) ==> Settled(DoOwn(w, s), id))
  {
    hide Accounted, Advance, AsLeft, Settled, CallsOk, QueueOk, Table.Valid;
    var other := Subject(s).value;
    assert IntentOk(w, other);
    var e := w.running[other];
    var l := Advance(w.table.rows[other], e, w.audits[other], s);
    AdvanceKeepsLocal(other, w.recorded[other], w.table.rows[other], e, w.audits[other], s);
    AsLeftByOthers(w, id, other, l, if s.CallBody? then [BodyCall(other, e.intent.request)] else [], DoOwn(w, s).mode);
    assert w.calls + [] == w.calls;
  }

  lemma SettledStep(w: World, s: Step, id: IntentId)
    requires Inv(w) && Enabled(w, s) && id in w.recorded && Settled(w, id)
    ensures Settled(Next(w, s), id) && AsLeft(w, Next(w, s), id)
  {
    assert id !in w.running by {
      if id in w.pruned { assert PrunedOk(w, id); } else { assert IntentOk(w, id); }
    }
    if Subject(s).Some? {
      SettledOwnStep(w, s, id);
    } else {
      SettledOtherStep(w, s, id);
    }
  }

  lemma SettledWhenSame(w: World, w': World, id: IntentId)
    requires SameFor(w, w', id) && w'.calls == w.calls && id in w.audits && Settled(w, id)
    ensures Settled(w', id) && AsLeft(w, w', id)
  {}

  lemma SettledPrune(w: World, cutoff: int, id: IntentId)
    requires id in w.audits && Settled(w, id)
    ensures Settled(DoPrune(w, cutoff), id) && AsLeft(w, DoPrune(w, cutoff), id)
  {}

  lemma SettledCrash(w: World, id: IntentId)
    requires id in w.audits && Settled(w, id) && id !in w.running
    ensures Settled(DoCrash(w), id) && AsLeft(w, DoCrash(w), id)
  {
    hide Table.Valid;
    SettledWhenSame(w, DoCrash(w), id);
  }

  lemma SettledRecord(w: World, other: IntentId, request: Request, now: int, id: IntentId)
    requires Inv(w) && Enabled(w, Record(other, request, now)) && id in w.recorded && Settled(w, id)
    ensures Settled(DoRecord(w, other, request, now), id) && AsLeft(w, DoRecord(w, other, request, now), id)
  {
    hide IntentsOk, CallsOk, QueueOk;
    SettledWhenSame(w, DoRecord(w, other, request, now), id);
  }

  lemma SettledReplayNext(w: World, id: IntentId)
    requires Inv(w) && Enabled(w, ReplayNext) && id in w.recorded && Settled(w, id)
    ensures Settled(DoReplayNext(w), id) && AsLeft(w, DoReplayNext(w), id)
  {
    hide Accounted, InStep, CallsOk, Table.Valid;
    assert w.mode.queue[0].id in w.table.rows && IntentOk(w, w.mode.queue[0].id);
    SettledWhenSame(w, DoReplayNext(w), id);
  }

  lemma SettledOtherStep(w: World, s: Step, id: IntentId)
    requires Inv(w) && Enabled(w, s) && Subject(s) == None && id in w.recorded && Settled(w, id)
    requires id !in w.running
    ensures Settled(Next(w, s), id) && AsLeft(w, Next(w, s), id)
  {
    hide Settled, AsLeft, IntentsOk, CallsOk, QueueOk, Table.Valid;
    if s.Record? {
      SettledRecord(w, s.id, s.request, s.now, id);
    } else if s.ReplayNext? {
      SettledReplayNext(w, id);
    } else if s.Prune? {
      SettledPrune(w, s.cutoff, id);
    } else if s.Crash? {
      SettledCrash(w, id);
    } else {
      SettledWhenSame(w, Next(w, s), id);
    }
  }

  lemma AsLeftThrough(u: World, v: World, w: World, id: IntentId)
    requires AsLeft(u, v, id) && AsLeft(v, w, id)
    requires id in u.table.rows && id in v.pruned ==> id !in v.table.rows
    ensures AsLeft(u, w, id)
  {
    forall k | |u.calls| <= k < |w.calls| ensures w.calls[k].id != id {
      if k < |v.calls| { assert w.calls[k] == v.calls[k]; }
    }
  }

  lemma SettledInduct(u: World, v: World, s: Step, id: IntentId)
    requires Inv(v) && Enabled(v, s) && id in v.recorded
    requires Settled(v, id) && AsLeft(u, v, id)
    ensures Settled(Next(v, s), id) && AsLeft(u, Next(v, s), id) && id in Next(v, s).recorded
  {
    SettledStep(v, s, id);
    assert id in v.pruned ==> id !in v.table.rows by {
      if id in v.table.rows { assert IntentOk(v, id); }
    }
    AsLeftThrough(u, v, Next(v, s), id);
  }

  lemma AsLeftBySelf(w: World, id: IntentId)
    requires Inv(w) && id in w.recorded
    ensures AsLeft(w, w, id)
  {}

  /** COMPLETED and FAILED are final: the row never changes and the body never runs again. */
  lemma {:induction false} SettledForGood(ws: seq<World>, steps: seq<Step>, i: nat, j: nat, id: IntentId)
    requires Behaviour(ws, steps) && i <= j < |ws|
    requires id in ws[i].recorded && Settled(ws[i], id)
    ensures id in ws[j].recorded && Settled(ws[j], id) && AsLeft(ws[i], ws[j], id)
  {
    hide Inv, Next, Enabled, Reached, Settled, AsLeft;
    if i < j {
      SettledForGood(ws, steps, i, j - 1, id);
      StepAt(ws, steps, j - 1);
      SettledInduct(ws[i], ws[j - 1], steps[j - 1], id);
    } else {
      InvAlways(ws, steps, i);
      AsLeftBySelf(ws[i], id);
    }
  }

  // Arguments.

  lemma RecordedAfter(w: World, s: Step)
    requires Sane(w) && Enabled(w, s)
    ensures Next(w, s).recorded == if s.Record? then w.recorded[s.id := s.request] else w.recorded
  {
    hide Table.Valid, DoOwn, Sane;
    if Subject(s).Some? {
      OwnKeepsRecorded(w, s);
    }
  }

  lemma OwnKeepsRecorded(w: World, s: Step)
    requires Sane(w) && Enabled(w, s) && Subject(s).Some?
    ensures DoOwn(w, s).recorded == w.recorded
  {
    hide Table.Valid, Advance;
  }

  lemma RecordedStep(w: World, s: Step, id: IntentId)
    requires Inv(w) && Enabled(w, s) && id in w.recorded
    ensures Sane(w) && id in Next(w, s).recorded && Next(w, s).recorded[id] == w.recorded[id]
  {
    hide Inv, Next, Sane;
    SaneByInv(w);
    RecordedAfter(w, s);
  }

  lemma {:induction false} RecordedForGood(ws: seq<World>, steps: seq<Step>, i: nat, j: nat, id: IntentId)
    requires Behaviour(ws, steps) && i <= j < |ws| && id in ws[i].recorded
    ensures id in ws[j].recorded && ws[j].recorded[id] == ws[i].recorded[id]
  {
    hide Inv, Next, Enabled, Reached;
    if i < j {
      RecordedForGood(ws, steps, i, j - 1, id);
      StepAt(ws, steps, j - 1);
      RecordedStep(ws[j - 1], steps[j - 1], id);
    }
  }

  /** The live call and every replay, in any process, run the body with the recorded arguments. */
  lemma SameArgumentsEveryTime(ws: seq<World>, steps: seq<Step>, i: nat, j: nat, id: IntentId, k: nat)
    requires Behaviour(ws, steps) && i <= j < |ws| && id in ws[i].recorded
    requires k < |ws[j].calls| && ws[j].calls[k].id == id
    ensures ws[j].calls[k].request == ws[i].recorded[id]
    ensures id in ws[j].table.rows ==> ws[j].table.rows[id].request == ws[i].recorded[id]
  {
    RecordedForGood(ws, steps, i, j, id);
    InvAlways(ws, steps, j);
    if id in ws[j].table.rows { assert IntentOk(ws[j], id); }
  }

  // Attempts.

  /** Conservation of attempts, and repetition only through interruptions. */
  lemma AttemptsAreAccountedFor(ws: seq<World>, steps: seq<Step>, i: nat, id: IntentId)
    requires Behaviour(ws, steps) && i < |ws| && id in ws[i].table.rows
    ensures id in ws[i].audits
    ensures var row, a := ws[i].table.rows[id], ws[i].audits[id];
            && row.attempts == a.failures + a.completions + a.interruptions +
                               One(id in ws[i].running && PastStart(ws[i].running[id]))
            && a.starts <= row.attempts
            && a.returned <= a.interruptions + 1
            && a.completions <= 1
  {
    InvAlways(ws, steps, i);
    assert IntentOk(ws[i], id);
  }

  predicate LimitIs(w: World, operation: string, limit: nat) {
    operation in w.registry ==> w.registry[operation] == Some(limit)
  }

  /** The row of one intent against a limit, with what interruptions add to it. */
  predicate Bounded(l: Local, limit: nat) {
    var underWay := l.executor.Some? && PastStart(l.executor.value);
    && (l.executor.Some? ==> l.executor.value.limit == Some(limit))
    && (l.row.status == Pending ==> l.row.attempts < limit)
    && l.row.attempts <= limit + l.audit.interruptions
    && (l.row.status == InProgress && !underWay ==> l.row.attempts < limit + l.audit.interruptions)
  }

  function LocalOf(w: World, id: IntentId): Local
    requires id in w.table.rows && id in w.audits
  {
    Local(w.table.rows[id], ExecutorOf(w, id), w.audits[id])
  }

  predicate BoundedIn(w: World, operation: string, limit: nat) {
    forall id :: id in w.table.rows && id in w.audits && w.table.rows[id].request.operation == operation ==>
      Bounded(LocalOf(w, id), limit)
  }

  lemma AdvanceKeepsBound(id: IntentId, row: Row, e: Executor, a: Audit, s: Step, limit: nat)
    requires CanAdvance(e, s) && LocalOk(id, row.request, Local(row, Some(e), a))
    requires Bounded(Local(row, Some(e), a), limit)
    ensures Bounded(Advance(row, e, a, s), limit)
  {}

  lemma BoundAfterPlace(w: World, other: IntentId, l: Local, calls: seq<BodyCall>, mode: Mode, id: IntentId, limit: nat)
    requires id in w.table.rows && id in w.audits && Bounded(LocalOf(w, id), limit)
    requires id == other ==> Bounded(l, limit)
    ensures Bounded(LocalOf(Place(w, other, l).(calls := calls, mode := mode), id), limit)
  {
    var w' := Place(w, other, l).(calls := calls, mode := mode);
    assert LocalOf(w', id) == if id == other then l else LocalOf(w, id);
  }

  lemma OwnStepKeepsBound(w: World, s: Step, limit: nat, id: IntentId)
    requires Inv(w) && Enabled(w, s) && Subject(s).Some?
    requires id in w.table.rows && id in w.audits && Bounded(LocalOf(w, id), limit)
    ensures Bounded(LocalOf(DoOwn(w, s), id), limit)
  {
    var other := Subject(s).value;
    assert IntentOk(w, other);
    var row, e, a := w.table.rows[other], w.running[other], w.audits[other];
    if id == other {
      assert LocalOf(w, id) == Local(row, Some(e), a);
      AdvanceKeepsBound(id, row, e, a, s, limit);
    }
    BoundAfterPlace(w, other, Advance(row, e, a, s), DoOwn(w, s).calls, DoOwn(w, s).mode, id, limit);
  }

  lemma OtherStepKeepsBound(w: World, s: Step, operation: string, limit: nat, id: IntentId)
    requires Inv(w) && Enabled(w, s) && Subject(s) == None && !s.Record? && LimitIs(w, operation, limit)
    requires id in w.table.rows && id in w.audits && Bounded(LocalOf(w, id), limit)
    requires w.table.rows[id].request.operation == operation
    requires id in Next(w, s).table.rows && id in Next(w, s).audits
    ensures Bounded(LocalOf(Next(w, s), id), limit)
  {
    hide Accounted, InStep, CallsOk, QueueOk, Table.Valid, Bounded;
    if s.Crash? {
      BoundAfterCrash(w, id, limit);
    } else if s.Prune? {
      BoundAfterPrune(w, s.cutoff, id, limit);
    } else if s.ReplayNext? {
      BoundAfterReplayNext(w, operation, limit, id);
    } else {
      assert LocalOf(Next(w, s), id) == LocalOf(w, id);
    }
  }

  lemma BoundAfterCrash(w: World, id: IntentId, limit: nat)
    requires id in w.table.rows && id in w.audits && Bounded(LocalOf(w, id), limit)
    ensures Bounded(LocalOf(DoCrash(w), id), limit)
  {}

  lemma BoundAfterPrune(w: World, cutoff: int, id: IntentId, limit: nat)
    requires id in w.table.rows && id in w.audits && Bounded(LocalOf(w, id), limit)
    requires id in DoPrune(w, cutoff).table.rows
    ensures Bounded(LocalOf(DoPrune(w, cutoff), id), limit)
  {
    hide Table.Valid, Bounded;
    assert LocalOf(DoPrune(w, cutoff), id) == LocalOf(w, id);
  }

  lemma BoundAfterReplayNext(w: World, operation: string, limit: nat, id: IntentId)
    requires QueueOk(w) && Enabled(w, ReplayNext) && LimitIs(w, operation, limit)
    requires id in w.table.rows && id in w.audits && Bounded(LocalOf(w, id), limit)
    requires w.table.rows[id].request.operation == operation
    ensures Bounded(LocalOf(DoReplayNext(w), id), limit)
  {
    assert id == w.mode.queue[0].id || LocalOf(DoReplayNext(w), id) == LocalOf(w, id);
  }

  lemma StepKeepsBoundOf(w: World, s: Step, operation: string, limit: nat, id: IntentId)
    requires Inv(w) && Enabled(w, s) && 1 <= limit
    requires BoundedIn(w, operation, limit) && LimitIs(w, operation, limit)
    requires id in Next(w, s).table.rows && id in Next(w, s).audits
    requires Next(w, s).table.rows[id].request.operation == operation
    ensures Bounded(LocalOf(Next(w, s), id), limit)
  {
    StepKeepsInv(w, s);
    if id in w.table.rows {
      assert IntentOk(w, id);
      assert IntentOk(Next(w, s), id);
      RecordedStep(w, s, id);
      if Subject(s).Some? {
        OwnStepKeepsBound(w, s, limit, id);
      } else if s.Record? {
        assert LocalOf(Next(w, s), id) == LocalOf(w, id);
      } else {
        OtherStepKeepsBound(w, s, operation, limit, id);
      }
    } else {
      OnlyRecordInserts(w, s, id);
    }
  }

  lemma OnlyRecordInserts(w: World, s: Step, id: IntentId)
    requires Inv(w) && Enabled(w, s) && id !in w.table.rows && id in Next(w, s).table.rows
    ensures s.Record? && s.id == id
  {
    hide Inv, Sane, Next;
    SaneByInv(w);
    RowsAfter(w, s);
  }

  lemma RowsAfter(w: World, s: Step)
    requires Sane(w) && Enabled(w, s)
    ensures Next(w, s).table.rows.Keys <= w.table.rows.Keys + if s.Record? then {s.id} else {}
  {
    hide Table.Valid, Advance;
  }

  lemma StepKeepsBound(w: World, s: Step, operation: string, limit: nat)
    requires Inv(w) && Enabled(w, s) && 1 <= limit
    requires BoundedIn(w, operation, limit) && LimitIs(w, operation, limit)
    ensures BoundedIn(Next(w, s), operation, limit)
  {
    var w' := Next(w, s);
    forall id | id in w'.table.rows && id in w'.audits && w'.table.rows[id].request.operation == operation
      ensures Bounded(LocalOf(w', id), limit)
    {
      StepKeepsBoundOf(w, s, operation, limit, id);
    }
  }

  lemma {:induction false} BoundAlways(ws: seq<World>, steps: seq<Step>, i: nat, operation: string, limit: nat)
    requires Behaviour(ws, steps) && i < |ws| && 1 <= limit
    requires forall k :: 0 <= k < |ws| ==> LimitIs(ws[k], operation, limit)
    ensures BoundedIn(ws[i], operation, limit)
  {
    hide Inv, Next, Enabled;
    if i > 0 {
      BoundAlways(ws, steps, i - 1, operation, limit);
      StepAt(ws, steps, i - 1);
      StepKeepsBound(ws[i - 1], steps[i - 1], operation, limit);
    } else {
      ReachedBefore(ws, steps, 0, |steps|);
    }
  }

  /** With max_attempts fixed: a pending intent has attempts to spare, and only interruptions can take
      an intent past the limit. */
  lemma AttemptsAreBounded(ws: seq<World>, steps: seq<Step>, i: nat, operation: string, limit: nat, id: IntentId)
    requires Behaviour(ws, steps) && i < |ws| && 1 <= limit
    requires forall k :: 0 <= k < |ws| ==> LimitIs(ws[k], operation, limit)
    requires id in ws[i].table.rows && ws[i].table.rows[id].request.operation == operation
    ensures id in ws[i].audits
    ensures var row, a := ws[i].table.rows[id], ws[i].audits[id];
            && (row.status == Pending ==> row.attempts < limit)
            && row.attempts <= limit + a.interruptions
            && a.starts <= limit + a.interruptions
  {
    BoundAlways(ws, steps, i, operation, limit);
    AttemptsAreAccountedFor(ws, steps, i, id);
    assert Bounded(LocalOf(ws[i], id), limit);
  }
}
