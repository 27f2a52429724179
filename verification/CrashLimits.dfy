/** When max_attempts holds in a run, and when it does not. */
module CrashLimits {
  import opened Options
  import opened Intents
  import opened CrashRecovery
  import opened CrashTheorems

  /** An attempt is under way: counted in the journal and not yet finished. */
  predicate Under(e: Option<Executor>) {
    e.Some? && PastStart(e.value)
  }

  predicate UnderWay(w: World, id: IntentId) {
    Under(ExecutorOf(w, id))
  }

  /** Step `s` cuts short attempt number `m` of an intent. */
  predicate CutsShort(w: World, s: Step, id: IntentId, m: nat) {
    (s == Crash || EndsEarly(s, id)) && UnderWay(w, id) && w.running[id].attempt == m
  }

  predicate CutAt(ws: seq<World>, steps: seq<Step>, k: nat, id: IntentId, m: nat) {
    k < |steps| && k < |ws| && CutsShort(ws[k], steps[k], id, m)
  }

  predicate StartsAt(steps: seq<Step>, l: nat, id: IntentId) {
    l < |steps| && steps[l].WriteStart? && steps[l].id == id
  }

  /** Before step `i` the last allowed attempt was cut short, and after that the intent was started again. */
  ghost predicate StartedAfterCut(ws: seq<World>, steps: seq<Step>, i: nat, id: IntentId, m: nat) {
    exists k: nat, l: nat :: k < l < i && CutAt(ws, steps, k, id, m) && StartsAt(steps, l, id)
  }

  ghost predicate CutBefore(ws: seq<World>, steps: seq<Step>, i: nat, id: IntentId, m: nat) {
    exists k: nat :: k < i && CutAt(ws, steps, k, id, m)
  }

  // One step.

  /** What a step does to a row and to whether an attempt on it is under way. */
  predicate StepOf(row: Row, e: Option<Executor>, row': Row, e': Option<Executor>, s: Step, id: IntentId, limit: nat) {
    var starts := s.WriteStart? && s.id == id;
    && (starts ==>
          && row'.attempts == row.attempts + 1 && !Under(e) && Under(e')
          && (limit <= row.attempts ==> row.status == InProgress))
    && (!starts ==> row'.attempts == row.attempts)
    && (row'.status == InProgress && !Under(e') ==>
          && row.status == InProgress
          && (Under(e) ==> (s == Crash || EndsEarly(s, id)) && e.value.attempt == row.attempts))
  }

  predicate StepOfRow(w: World, s: Step, w': World, id: IntentId, limit: nat) {
    && id in w.table.rows && id in w'.table.rows
    && StepOf(w.table.rows[id], ExecutorOf(w, id), w'.table.rows[id], ExecutorOf(w', id), s, id, limit)
  }

  lemma AdvanceStepOf(row: Row, e: Executor, a: Audit, s: Step, id: IntentId, limit: nat)
    requires CanAdvance(e, s) && Subject(s) == Some(id)
    requires LocalOk(id, row.request, Local(row, Some(e), a)) && Bounded(Local(row, Some(e), a), limit)
    ensures var l := Advance(row, e, a, s); StepOf(row, Some(e), l.row, l.executor, s, id, limit)
  {}

  lemma OwnStepOfRow(w: World, s: Step, id: IntentId, limit: nat)
    requires Inv(w) && Enabled(w, s) && Subject(s) == Some(id)
    requires id in w.table.rows && id in w.audits && Bounded(LocalOf(w, id), limit)
    ensures StepOfRow(w, s, DoOwn(w, s), id, limit)
  {
    hide Accounted, InStep, CallsOk, QueueOk, Table.Valid, StepOf, Advance, Bounded;
    assert IntentOk(w, id);
    var l := Advance(w.table.rows[id], w.running[id], w.audits[id], s);
    AdvanceStepOf(w.table.rows[id], w.running[id], w.audits[id], s, id, limit);
    assert DoOwn(w, s).table.rows[id] == l.row && ExecutorOf(DoOwn(w, s), id) == l.executor;
  }

  lemma RowAtRest(row: Row, e: Option<Executor>, e': Option<Executor>, s: Step, id: IntentId, limit: nat)
    requires !s.WriteStart? && (Under(e) ==> Under(e'))
    ensures StepOf(row, e, row, e', s, id, limit)
  {}

  lemma CrashOfRow(w: World, id: IntentId, limit: nat)
    requires id in w.table.rows && id in w.audits
    requires id in w.running ==> InStep(w.table.rows[id], w.running[id], w.audits[id])
    ensures StepOfRow(w, Crash, DoCrash(w), id, limit)
  {}

  lemma OtherStepOfRow(w: World, s: Step, id: IntentId, limit: nat)
    requires Inv(w) && Enabled(w, s) && Subject(s) == None && id in w.table.rows && id in Next(w, s).table.rows
    ensures StepOfRow(w, s, Next(w, s), id, limit)
  {
    hide Accounted, CallsOk, Table.Valid, QueueOk, StepOfRow;
    if s.Crash? {
      assert IntentOk(w, id);
      CrashOfRow(w, id, limit);
    } else {
      SaneByInv(w);
      QuietStepOfRow(w, s, id, limit);
    }
  }

  lemma QuietStepOfRow(w: World, s: Step, id: IntentId, limit: nat)
    requires Sane(w) && Enabled(w, s) && Subject(s) == None && s != Crash && id in w.table.rows && id in Next(w, s).table.rows
    ensures StepOfRow(w, s, Next(w, s), id, limit)
  {
    hide Table.Valid, StepOf;
    RowAtRest(w.table.rows[id], ExecutorOf(w, id), ExecutorOf(Next(w, s), id), s, id, limit);
  }

  lemma ElsewhereOfRow(w: World, s: Step, id: IntentId, limit: nat)
    requires Inv(w) && Enabled(w, s) && Subject(s).Some? && Subject(s) != Some(id) && id in w.table.rows
    ensures StepOfRow(w, s, DoOwn(w, s), id, limit)
  {
    hide Accounted, CallsOk, Table.Valid, Advance;
    assert IntentOk(w, id) && IntentOk(w, Subject(s).value);
    assert ExecutorOf(DoOwn(w, s), id) == ExecutorOf(w, id);
  }

  lemma StepChangesRow(w: World, s: Step, id: IntentId, operation: string, limit: nat)
    requires Inv(w) && Enabled(w, s) && BoundedIn(w, operation, limit)
    requires id in w.table.rows && id in Next(w, s).table.rows && w.table.rows[id].request.operation == operation
    ensures StepOfRow(w, s, Next(w, s), id, limit)
  {
    hide Accounted, CallsOk, Table.Valid, StepOfRow, QueueOk, InStep;
    assert IntentOk(w, id);
    if Subject(s) == Some(id) {
      OwnStepOfRow(w, s, id, limit);
    } else if Subject(s) == None {
      OtherStepOfRow(w, s, id, limit);
    } else {
      ElsewhereOfRow(w, s, id, limit);
    }
  }

  // Runs.

  lemma NewRow(w: World, s: Step, id: IntentId)
    requires Inv(w) && Enabled(w, s) && id !in w.table.rows && id in Next(w, s).table.rows
    ensures id !in w.recorded && Next(w, s).table.rows[id].attempts == 0
  {
    OnlyRecordInserts(w, s, id);
  }

  lemma SameOperation(ws: seq<World>, steps: seq<Step>, i: nat, j: nat, id: IntentId)
    requires Behaviour(ws, steps) && i <= j < |ws| && id in ws[i].table.rows && id in ws[j].table.rows
    ensures ws[i].table.rows[id].request == ws[j].table.rows[id].request
  {
    hide Reached;
    InvAlways(ws, steps, i);
    InvAlways(ws, steps, j);
    assert IntentOk(ws[i], id) && IntentOk(ws[j], id);
    RecordedForGood(ws, steps, i, j, id);
  }

  lemma RowStepAt(ws: seq<World>, steps: seq<Step>, k: nat, operation: string, limit: nat, id: IntentId)
    requires Behaviour(ws, steps) && k < |steps| && 1 <= limit
    requires forall n :: 0 <= n < |ws| ==> LimitIs(ws[n], operation, limit)
    requires id in ws[k + 1].table.rows && ws[k + 1].table.rows[id].request.operation == operation
    ensures id in ws[k].table.rows ==>
              ws[k].table.rows[id].request.operation == operation && StepOfRow(ws[k], steps[k], ws[k + 1], id, limit)
    ensures id !in ws[k].table.rows ==> id !in ws[k].recorded && ws[k + 1].table.rows[id].attempts == 0
  {
    hide Inv, Next, Enabled, Reached, StepOfRow, BoundedIn;
    StepAt(ws, steps, k);
    BoundAlways(ws, steps, k, operation, limit);
    if id in ws[k].table.rows {
      SameOperation(ws, steps, k, k + 1, id);
      StepChangesRow(ws[k], steps[k], id, operation, limit);
    } else {
      NewRow(ws[k], steps[k], id);
    }
  }

  lemma CutStays(ws: seq<World>, steps: seq<Step>, i: nat, id: IntentId, m: nat)
    ensures CutBefore(ws, steps, i, id, m) ==> CutBefore(ws, steps, i + 1, id, m)
    ensures StartedAfterCut(ws, steps, i, id, m) ==> StartedAfterCut(ws, steps, i + 1, id, m)
    ensures CutAt(ws, steps, i, id, m) ==> CutBefore(ws, steps, i + 1, id, m)
    ensures CutBefore(ws, steps, i, id, m) && StartsAt(steps, i, id) ==> StartedAfterCut(ws, steps, i + 1, id, m)
  {}

  lemma OneStepFurther(ws: seq<World>, steps: seq<Step>, i: nat, id: IntentId, limit: nat)
    requires i < |steps| && i + 1 < |ws| && StepOfRow(ws[i], steps[i], ws[i + 1], id, limit)
    requires limit < ws[i].table.rows[id].attempts ==> StartedAfterCut(ws, steps, i, id, limit)
    requires ws[i].table.rows[id].attempts == limit && ws[i].table.rows[id].status == InProgress && !UnderWay(ws[i], id) ==>
               CutBefore(ws, steps, i, id, limit)
    ensures limit < ws[i + 1].table.rows[id].attempts ==> StartedAfterCut(ws, steps, i + 1, id, limit)
    ensures ws[i + 1].table.rows[id].attempts == limit && ws[i + 1].table.rows[id].status == InProgress && !UnderWay(ws[i + 1], id) ==>
              CutBefore(ws, steps, i + 1, id, limit)
  {
    hide CutBefore, StartedAfterCut;
    CutStays(ws, steps, i, id, limit);
  }

  lemma {:induction false} PastTheLimitNeedsCut(ws: seq<World>, steps: seq<Step>, i: nat, operation: string, limit: nat, id: IntentId)
    requires Behaviour(ws, steps) && i < |ws| && 1 <= limit
    requires forall k :: 0 <= k < |ws| ==> LimitIs(ws[k], operation, limit)
    requires id in ws[i].table.rows && ws[i].table.rows[id].request.operation == operation
    ensures limit < ws[i].table.rows[id].attempts ==> StartedAfterCut(ws, steps, i, id, limit)
    ensures ws[i].table.rows[id].attempts == limit && ws[i].table.rows[id].status == InProgress && !UnderWay(ws[i], id) ==>
              CutBefore(ws, steps, i, id, limit)
  {
    hide Reached, StepOfRow, StartedAfterCut, CutBefore, UnderWay, LimitIs;
    if i == 0 {
      EmptyAtStart(ws, steps);
    } else {
      RowStepAt(ws, steps, i - 1, operation, limit, id);
      if id in ws[i - 1].table.rows {
        PastTheLimitNeedsCut(ws, steps, i - 1, operation, limit, id);
        OneStepFurther(ws, steps, i - 1, id, limit);
      }
    }
  }

  lemma EmptyAtStart(ws: seq<World>, steps: seq<Step>)
    requires Behaviour(ws, steps)
    ensures ws[0].table.rows == map[]
  {
    ReachedBefore(ws, steps, 0, |steps|);
  }

  lemma AttemptsStepUp(w: World, s: Step, w': World, id: IntentId, limit: nat)
    requires StepOfRow(w, s, w', id, limit)
    ensures w.table.rows[id].attempts <= w'.table.rows[id].attempts
    ensures s.WriteStart? && s.id == id ==> w.table.rows[id].attempts < w'.table.rows[id].attempts
  {}

  lemma {:induction false} AttemptsGrow(ws: seq<World>, steps: seq<Step>, i: nat, j: nat, operation: string, limit: nat, id: IntentId)
    requires Behaviour(ws, steps) && i <= j < |ws| && 1 <= limit
    requires forall k :: 0 <= k < |ws| ==> LimitIs(ws[k], operation, limit)
    requires id in ws[i].table.rows && id in ws[j].table.rows && ws[j].table.rows[id].request.operation == operation
    ensures ws[i].table.rows[id].attempts <= ws[j].table.rows[id].attempts
    decreases j
  {
    hide Inv, Next, Enabled, Reached, StepOfRow, LimitIs;
    if i < j {
      RowStepAt(ws, steps, j - 1, operation, limit, id);
      RecordedWhileThere(ws, steps, i, j - 1, id);
      AttemptsGrow(ws, steps, i, j - 1, operation, limit, id);
      AttemptsStepUp(ws[j - 1], steps[j - 1], ws[j], id, limit);
    }
  }

  lemma RecordedWhileThere(ws: seq<World>, steps: seq<Step>, i: nat, j: nat, id: IntentId)
    requires Behaviour(ws, steps) && i <= j < |ws| && id in ws[i].table.rows
    ensures id in ws[j].recorded
  {
    hide Reached;
    InvAlways(ws, steps, i);
    RecordedForGood(ws, steps, i, j, id);
  }

  lemma CutRow(ws: seq<World>, steps: seq<Step>, k: nat, id: IntentId, m: nat)
    requires Behaviour(ws, steps) && CutAt(ws, steps, k, id, m)
    ensures id in ws[k].table.rows && ws[k].table.rows[id].attempts == m
  {
    hide Reached;
    InvAlways(ws, steps, k);
    assert IntentOk(ws[k], id);
  }

  lemma StartRow(ws: seq<World>, steps: seq<Step>, l: nat, id: IntentId)
    requires Behaviour(ws, steps) && StartsAt(steps, l, id)
    ensures id in ws[l].table.rows && id in ws[l + 1].table.rows
  {
    hide Reached;
    StepAt(ws, steps, l);
  }

  lemma CutTakesPastTheLimit(ws: seq<World>, steps: seq<Step>, k: nat, l: nat, i: nat, operation: string, limit: nat, id: IntentId)
    requires Behaviour(ws, steps) && k < l < i < |ws| && 1 <= limit
    requires forall n :: 0 <= n < |ws| ==> LimitIs(ws[n], operation, limit)
    requires id in ws[i].table.rows && ws[i].table.rows[id].request.operation == operation
    requires CutAt(ws, steps, k, id, limit) && StartsAt(steps, l, id)
    ensures limit < ws[i].table.rows[id].attempts
  {
    hide Reached, StepOfRow, LimitIs, CutAt;
    CutRow(ws, steps, k, id, limit);
    StartRow(ws, steps, l, id);
    SameOperation(ws, steps, l, i, id);
    SameOperation(ws, steps, l + 1, i, id);
    AttemptsGrow(ws, steps, k, l, operation, limit, id);
    RowStepAt(ws, steps, l, operation, limit, id);
    AttemptsStepUp(ws[l], steps[l], ws[l + 1], id, limit);
    AttemptsGrow(ws, steps, l + 1, i, operation, limit, id);
  }

  /** max_attempts is exceeded exactly when attempt number max_attempts was cut short by a crash or an
      interruption and the intent was started again later; cutting short any other attempt does no harm. */
  lemma PastTheLimitIff(ws: seq<World>, steps: seq<Step>, i: nat, operation: string, limit: nat, id: IntentId)
    requires Behaviour(ws, steps) && i < |ws| && 1 <= limit
    requires forall k :: 0 <= k < |ws| ==> LimitIs(ws[k], operation, limit)
    requires id in ws[i].table.rows && ws[i].table.rows[id].request.operation == operation
    ensures limit < ws[i].table.rows[id].attempts <==> StartedAfterCut(ws, steps, i, id, limit)
  {
    hide Reached, CutAt, LimitIs;
    PastTheLimitNeedsCut(ws, steps, i, operation, limit, id);
    if StartedAfterCut(ws, steps, i, id, limit) {
      var k: nat, l: nat :| k < l < i && CutAt(ws, steps, k, id, limit) && StartsAt(steps, l, id);
      CutTakesPastTheLimit(ws, steps, k, l, i, operation, limit, id);
    }
  }

  // What max_attempts leaves to run.

  /** Executions that came to their last journal write. */
  function Executions(a: Audit): nat { a.failures + a.completions }

  /** How many executions `done` attempts leave; one that is past its limit gets another. */
  function Allowance(done: int, limit: nat): nat {
    if done < limit then limit - done else 1
  }

  /** What a step does to the executions of an intent. */
  predicate CountsOn(row: Row, a: Audit, row': Row, a': Audit, limit: nat) {
    && a.interruptions <= a'.interruptions
    && Executions(a) <= Executions(a') <= Executions(a) + 1
    && (row.status !in UNFINISHED ==> Executions(a') == Executions(a) && row'.status !in UNFINISHED)
    && (Executions(a') != Executions(a) && row'.status in UNFINISHED ==>
          row'.attempts < limit && row'.attempts == Executions(a') + a'.interruptions)
  }

  predicate CountsOnIn(w: World, w': World, id: IntentId, limit: nat) {
    && id in w.table.rows && id in w'.table.rows && id in w.audits && id in w'.audits
    && CountsOn(w.table.rows[id], w.audits[id], w'.table.rows[id], w'.audits[id], limit)
  }

  lemma AdvanceCounts(row: Row, e: Executor, a: Audit, s: Step, id: IntentId, limit: nat)
    requires CanAdvance(e, s) && LocalOk(id, row.request, Local(row, Some(e), a)) && Bounded(Local(row, Some(e), a), limit)
    ensures var l := Advance(row, e, a, s); CountsOn(row, a, l.row, l.audit, limit)
  {}

  lemma OwnStepCounts(w: World, s: Step, id: IntentId, limit: nat)
    requires Inv(w) && Enabled(w, s) && Subject(s) == Some(id)
    requires id in w.table.rows && id in w.audits && Bounded(LocalOf(w, id), limit)
    ensures CountsOnIn(w, DoOwn(w, s), id, limit)
  {
    hide Accounted, InStep, CallsOk, QueueOk, Table.Valid, CountsOn, Advance, Bounded;
    assert IntentOk(w, id);
    AdvanceCounts(w.table.rows[id], w.running[id], w.audits[id], s, id, limit);
  }

  lemma ElsewhereCounts(w: World, s: Step, id: IntentId, limit: nat)
    requires Sane(w) && Enabled(w, s) && Subject(s) != Some(id) && id in w.table.rows && id in Next(w, s).table.rows
    ensures CountsOnIn(w, Next(w, s), id, limit)
  {
    hide Table.Valid, Advance;
  }

  lemma StepCounts(w: World, s: Step, id: IntentId, operation: string, limit: nat)
    requires Inv(w) && Enabled(w, s) && BoundedIn(w, operation, limit)
    requires id in w.table.rows && id in Next(w, s).table.rows && w.table.rows[id].request.operation == operation
    ensures CountsOnIn(w, Next(w, s), id, limit)
  {
    hide Accounted, CallsOk, Table.Valid, CountsOnIn, QueueOk, InStep;
    assert IntentOk(w, id);
    SaneByInv(w);
    if Subject(s) == Some(id) {
      OwnStepCounts(w, s, id, limit);
    } else {
      ElsewhereCounts(w, s, id, limit);
    }
  }

  lemma CountsAt(ws: seq<World>, steps: seq<Step>, k: nat, operation: string, limit: nat, id: IntentId)
    requires Behaviour(ws, steps) && k < |steps| && 1 <= limit
    requires forall n :: 0 <= n < |ws| ==> LimitIs(ws[n], operation, limit)
    requires id in ws[k].table.rows && id in ws[k + 1].table.rows && ws[k].table.rows[id].request.operation == operation
    ensures CountsOnIn(ws[k], ws[k + 1], id, limit)
  {
    hide Inv, Next, Enabled, Reached, CountsOnIn, BoundedIn;
    StepAt(ws, steps, k);
    BoundAlways(ws, steps, k, operation, limit);
    StepCounts(ws[k], steps[k], id, operation, limit);
  }

  lemma AttemptsDone(ws: seq<World>, steps: seq<Step>, i: nat, id: IntentId)
    requires Behaviour(ws, steps) && i < |ws| && id in ws[i].table.rows
    ensures id in ws[i].audits
    ensures ws[i].table.rows[id].attempts - One(UnderWay(ws[i], id)) == Executions(ws[i].audits[id]) + ws[i].audits[id].interruptions
  {
    hide Reached;
    InvAlways(ws, steps, i);
    assert IntentOk(ws[i], id);
  }

  /** `ran` executions after `done` attempts, and where they leave the row. */
  predicate WithinAllowance(row: Row, a: Audit, done: int, before: nat, interrupted: nat, limit: nat) {
    && interrupted <= a.interruptions && before <= Executions(a)
    && Executions(a) - before <= Allowance(done, limit)
    && (row.status in UNFINISHED ==> Executions(a) - before < Allowance(done, limit))
  }

  lemma StaysWithin(row: Row, a: Audit, row': Row, a': Audit, done: int, before: nat, interrupted: nat, limit: nat)
    requires CountsOn(row, a, row', a', limit) && WithinAllowance(row, a, done, before, interrupted, limit)
    requires done == before + interrupted
    ensures WithinAllowance(row', a', done, before, interrupted, limit)
  {}

  /** The measure of an intent is max_attempts minus its attempts: counted from any moment, at most that many
      further executions come to their last journal write, and as long as the intent is unfinished some are left.
      (An intent that interruptions have taken to its limit gets one more.) */
  lemma {:induction false} ExecutionsLeft(
    ws: seq<World>, steps: seq<Step>, i: nat, j: nat, operation: string, limit: nat, id: IntentId)
    requires Behaviour(ws, steps) && i <= j < |ws| && 1 <= limit
    requires forall k :: 0 <= k < |ws| ==> LimitIs(ws[k], operation, limit)
    requires id in ws[i].table.rows && id in ws[j].table.rows && ws[j].table.rows[id].request.operation == operation
    ensures id in ws[i].audits && id in ws[j].audits
    ensures var done := ws[i].table.rows[id].attempts - One(UnderWay(ws[i], id));
            WithinAllowance(ws[j].table.rows[id], ws[j].audits[id], done, Executions(ws[i].audits[id]), ws[i].audits[id].interruptions, limit)
    decreases j
  {
    hide Inv, Next, Enabled, Reached, StepOfRow, CountsOn, LimitIs, UnderWay;
    AttemptsDone(ws, steps, i, id);
    if i < j {
      RowStepAt(ws, steps, j - 1, operation, limit, id);
      RecordedWhileThere(ws, steps, i, j - 1, id);
      ExecutionsLeft(ws, steps, i, j - 1, operation, limit, id);
      CountsAt(ws, steps, j - 1, operation, limit, id);
      var w, w' := ws[j - 1], ws[j];
      StaysWithin(w.table.rows[id], w.audits[id], w'.table.rows[id], w'.audits[id],
                  ws[i].table.rows[id].attempts - One(UnderWay(ws[i], id)), Executions(ws[i].audits[id]),
                  ws[i].audits[id].interruptions, limit);
    }
  }
}
