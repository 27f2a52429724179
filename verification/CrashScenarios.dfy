/** Two facts about single executions: what interleaving cannot change, and what crashes can. */
module CrashScenarios {
  import opened Options
  import opened Sequences
  import opened Intents
  import opened DurableOperations
  import opened CrashRecovery
  import opened CrashTheorems

  // An execution that is not interrupted has the effect of DurableRuntime.Execute, whatever else runs.

  /** How far an execution that began on `start` has taken its row. */
  predicate Underway(start: Row, limit: Limit, row: Row, e: Executor) {
    && e.limit == limit
    && match e.phase
       case Called => row == start
       case StartRead(seen) => row == start && seen == start
       case FinishRead(_, seen) => seen == row && row == Begun(start, row.updatedAt) && e.attempt == row.attempts
       case _ => row == Begun(start, row.updatedAt) && e.attempt == row.attempts
  }

  function OutcomeOf(failure: Option<string>): BodyOutcome {
    match failure
    case None => Returns
    case Some(error) => Raises(error)
  }

  lemma AdvanceRefines(start: Row, limit: Limit, row: Row, e: Executor, a: Audit, s: Step)
    requires CanAdvance(e, s) && !s.JournalFails? && !s.Cancel? && Underway(start, limit, row, e)
    ensures var l := Advance(row, e, a, s);
            if s.WriteFinish?
            then l.executor == None && l.row == AfterExecution(start, limit, Turn(OutcomeOf(e.phase.failure), row.updatedAt, s.now, NoFault))
            else l.executor.Some? && Underway(start, limit, l.row, l.executor.value)
  {}

  lemma PlaceLeavesOthers(w: World, other: IntentId, l: Local, calls: seq<BodyCall>, mode: Mode, id: IntentId)
    requires id != other && id in w.table.rows && id in w.audits
    ensures LocalOf(Place(w, other, l).(calls := calls, mode := mode), id) == LocalOf(w, id)
  {
    assert ExecutorOf(Place(w, other, l).(calls := calls, mode := mode), id) == ExecutorOf(w, id);
  }

  lemma OthersLeaveItAlone(w: World, s: Step, id: IntentId)
    requires Inv(w) && Enabled(w, s) && id in w.running && Subject(s) != Some(id) && s != Crash
    ensures id in w.audits && id in w.table.rows && id in Next(w, s).table.rows && id in Next(w, s).audits
    ensures LocalOf(Next(w, s), id) == LocalOf(w, id)
  {
    assert IntentOk(w, id);
    if Subject(s).Some? {
      var other := Subject(s).value;
      assert IntentOk(w, other);
      PlaceLeavesOthers(w, other, Advance(w.table.rows[other], w.running[other], w.audits[other], s), DoOwn(w, s).calls, DoOwn(w, s).mode, id);
    } else {
      ProcessStepsLeaveItAlone(w, s, id);
    }
  }

  lemma ProcessStepsLeaveItAlone(w: World, s: Step, id: IntentId)
    requires Inv(w) && Enabled(w, s) && id in w.running && Subject(s) == None && s != Crash
    requires IntentOk(w, id)
    ensures id in Next(w, s).table.rows && id in Next(w, s).audits
    ensures LocalOf(Next(w, s), id) == LocalOf(w, id)
  {
  }

  predicate NotCutShort(steps: seq<Step>, i: nat, j: nat, id: IntentId) {
    forall k :: i <= k < j < |steps| + 1 ==> steps[k] != Crash && !EndsEarly(steps[k], id)
  }

  lemma CalledIsUnderway(ws: seq<World>, steps: seq<Step>, i: nat, id: IntentId)
    requires Behaviour(ws, steps) && i < |ws| && id in ws[i].running && ws[i].running[id].phase == Called
    ensures id in ws[i].table.rows
    ensures Underway(ws[i].table.rows[id], ws[i].running[id].limit, ws[i].table.rows[id], ws[i].running[id])
  {
    InvAlways(ws, steps, i);
  }

  lemma {:induction false} StillUnderway(ws: seq<World>, steps: seq<Step>, i: nat, k: nat, id: IntentId)
    requires Behaviour(ws, steps) && i <= k < |ws|
    requires forall n :: i <= n <= k ==> id in ws[n].running
    requires ws[i].running[id].phase == Called && NotCutShort(steps, i, k, id)
    ensures id in ws[i].table.rows && id in ws[k].table.rows
    ensures Underway(ws[i].table.rows[id], ws[i].running[id].limit, ws[k].table.rows[id], ws[k].running[id])
  {
    hide Inv, Next, Enabled, Reached, Underway;
    if i < k {
      StillUnderway(ws, steps, i, k - 1, id);
      StepAt(ws, steps, k - 1);
      OneStepUnderway(ws[k - 1], steps[k - 1], id, ws[i].table.rows[id], ws[i].running[id].limit);
    } else {
      CalledIsUnderway(ws, steps, i, id);
    }
  }

  lemma OneStepUnderway(w: World, s: Step, id: IntentId, start: Row, limit: Limit)
    requires Inv(w) && Enabled(w, s) && s != Crash && !EndsEarly(s, id) && id in w.running && id in w.table.rows
    requires Underway(start, limit, w.table.rows[id], w.running[id])
    ensures var w' := Next(w, s);
            && id in w'.table.rows
            && (id in w'.running ==> Underway(start, limit, w'.table.rows[id], w'.running[id]))
            && (id !in w'.running ==>
                  s.WriteFinish? && s.id == id && w.running[id].phase.FinishRead? &&
                  w'.table.rows[id] == AfterExecution(start, limit, Turn(OutcomeOf(w.running[id].phase.failure), w.table.rows[id].updatedAt, s.now, NoFault)))
  {
    hide Accounted, CallsOk, QueueOk, Table.Valid;
    var w' := Next(w, s);
    if Subject(s) == Some(id) {
      assert IntentOk(w, id);
      var l := Advance(w.table.rows[id], w.running[id], w.audits[id], s);
      AdvanceRefines(start, limit, w.table.rows[id], w.running[id], w.audits[id], s);
      assert w'.table.rows[id] == l.row && ExecutorOf(w', id) == l.executor;
    } else {
      OthersLeaveItAlone(w, s, id);
      assert ExecutorOf(w', id) == ExecutorOf(w, id);
    }
  }

  // What the execution did on the way.

  /** How often the body of an intent has been called. */
  function CallsOf(calls: seq<BodyCall>, id: IntentId): nat {
    if calls == [] then 0
    else CallsOf(calls[..|calls| - 1], id) + if calls[|calls| - 1].id == id then 1 else 0
  }

  lemma CallsOfOneMore(calls: seq<BodyCall>, call: BodyCall, id: IntentId)
    ensures CallsOf(calls + [call], id) == CallsOf(calls, id) + if call.id == id then 1 else 0
  {
    assert (calls + [call])[..|calls|] == calls;
  }

  predicate HasCalled(e: Executor) {
    !e.phase.Called? && !e.phase.StartRead? && !e.phase.Started?
  }

  predicate HasEnded(e: Executor) {
    e.phase.Ended? || e.phase.FinishRead?
  }

  lemma AdvanceTraces(row: Row, e: Executor, a: Audit, s: Step)
    requires CanAdvance(e, s) && !s.JournalFails? && !s.Cancel?
    ensures var e' := Advance(row, e, a, s).executor;
            && (s.WriteFinish? <==> e' == None)
            && (e'.Some? ==> (HasCalled(e'.value) <==> HasCalled(e) || s.CallBody?))
            && (s.CallBody? ==> !HasCalled(e))
            && (e'.Some? && HasEnded(e'.value) ==>
                  (HasEnded(e) && e'.value.phase.failure == e.phase.failure)
                  || (s.BodyEnds? && s.failure == e'.value.phase.failure))
  {}

  lemma CallsAfter(w: World, s: Step)
    requires Sane(w) && Enabled(w, s)
    ensures Next(w, s).calls == if s.CallBody? then w.calls + [BodyCall(s.id, w.running[s.id].intent.request)] else w.calls
  {
    hide Table.Valid, Advance;
  }

  lemma CallsGrow(w: World, s: Step, id: IntentId)
    requires Inv(w) && Enabled(w, s)
    ensures CallsOf(Next(w, s).calls, id) == CallsOf(w.calls, id) + if s == CallBody(id) then 1 else 0
  {
    hide Accounted, CallsOk, QueueOk, Table.Valid, Next, Sane;
    SaneByInv(w);
    CallsAfter(w, s);
    if s.CallBody? {
      assert IntentOk(w, s.id);
      CallsOfOneMore(w.calls, BodyCall(s.id, w.running[s.id].intent.request), id);
    }
  }

  lemma OneStepTraces(w: World, s: Step, id: IntentId)
    requires Inv(w) && Enabled(w, s) && s != Crash && !EndsEarly(s, id) && id in w.running
    ensures id in Next(w, s).running ==>
              var e, e' := w.running[id], Next(w, s).running[id];
              && (HasCalled(e') <==> HasCalled(e) || s == CallBody(id))
              && (HasEnded(e') ==> (HasEnded(e) && e'.phase.failure == e.phase.failure) || s == BodyEnds(id, e'.phase.failure))
    ensures s == CallBody(id) ==> !HasCalled(w.running[id])
  {
    hide Accounted, CallsOk, QueueOk, Table.Valid;
    assert IntentOk(w, id);
    if Subject(s) == Some(id) {
      AdvanceTraces(w.table.rows[id], w.running[id], w.audits[id], s);
      assert ExecutorOf(Next(w, s), id) == Advance(w.table.rows[id], w.running[id], w.audits[id], s).executor;
    } else {
      OthersLeaveItAlone(w, s, id);
      assert ExecutorOf(Next(w, s), id) == ExecutorOf(w, id);
    }
  }

  /** The body of the intent ended this way at one of the steps `i` up to `k`. */
  predicate EndedAs(steps: seq<Step>, i: nat, k: nat, id: IntentId, failure: Option<string>) {
    exists m :: i <= m < k && m < |steps| && steps[m] == BodyEnds(id, failure)
  }

  lemma {:induction false} Traced(ws: seq<World>, steps: seq<Step>, i: nat, k: nat, id: IntentId)
    requires Behaviour(ws, steps) && i <= k < |ws|
    requires forall n :: i <= n <= k ==> id in ws[n].running
    requires ws[i].running[id].phase == Called && NotCutShort(steps, i, k, id)
    ensures CallsOf(ws[k].calls, id) == CallsOf(ws[i].calls, id) + if HasCalled(ws[k].running[id]) then 1 else 0
    ensures HasEnded(ws[k].running[id]) ==> EndedAs(steps, i, k, id, ws[k].running[id].phase.failure)
  {
    hide Inv, Next, Enabled, Reached, CallsOf;
    if i < k {
      Traced(ws, steps, i, k - 1, id);
      StepAt(ws, steps, k - 1);
      CallsGrow(ws[k - 1], steps[k - 1], id);
      OneStepTraces(ws[k - 1], steps[k - 1], id);
    }
  }

  /** From the call of `execute` to its last write, the row moves as if the execution ran alone: its body is
      called once, and the row shows how that call ended. */
  lemma InterleavingIsInvisible(ws: seq<World>, steps: seq<Step>, i: nat, j: nat, id: IntentId) returns (turn: Turn)
    requires Behaviour(ws, steps) && i < j < |ws|
    requires forall n :: i <= n < j ==> id in ws[n].running
    requires id !in ws[j].running
    requires ws[i].running[id].phase == Called && NotCutShort(steps, i, j, id)
    ensures id in ws[i].table.rows && id in ws[j].table.rows && turn.outcome != Cancelled && turn.fault == NoFault
    ensures ws[j].table.rows[id] == AfterExecution(ws[i].table.rows[id], ws[i].running[id].limit, turn)
    ensures exists failure :: turn.outcome == OutcomeOf(failure) && EndedAs(steps, i, j, id, failure)
    ensures steps[j - 1] == WriteFinish(id, turn.ended)
    ensures CallsOf(ws[j].calls, id) == CallsOf(ws[i].calls, id) + 1
  {
    hide Inv, Next, Enabled, Reached, Underway, CallsOf;
    StillUnderway(ws, steps, i, j - 1, id);
    Traced(ws, steps, i, j - 1, id);
    var w, s := ws[j - 1], steps[j - 1];
    StepAt(ws, steps, j - 1);
    OneStepUnderway(w, s, id, ws[i].table.rows[id], ws[i].running[id].limit);
    CallsGrow(w, s, id);
    var failure := w.running[id].phase.failure;
    assert EndedAs(steps, i, j - 1, id, failure) && EndedAs(steps, i, j, id, failure);
    turn := Turn(OutcomeOf(failure), w.table.rows[id].updatedAt, s.now, NoFault);
  }

  // max_attempts does not bound the attempts of a body that brings the process down.

  lemma Extend(ws: seq<World>, steps: seq<Step>, s: Step, operation: string, limit: nat) returns (ws': seq<World>, steps': seq<Step>)
    requires Behaviour(ws, steps) && Enabled(ws[|steps|], s)
    requires forall k :: 0 <= k < |ws| ==> LimitIs(ws[k], operation, limit)
    requires s.Register? && s.operation == operation ==> s.limit == Some(limit)
    ensures |steps'| == |steps| + 1 && Behaviour(ws', steps')
    ensures Sane(ws[|steps|]) && ws'[|steps'|] == Next(ws[|steps|], s)
    ensures forall k :: 0 <= k < |ws'| ==> LimitIs(ws'[k], operation, limit)
  {
    EveryEnabledStepContinues(ws, steps, s);
    ws', steps' := ws + [Next(ws[|steps|], s)], steps + [s];
    assert LimitIs(ws[|steps|], operation, limit);
    forall k | 0 <= k < |ws'| ensures LimitIs(ws'[k], operation, limit) {
      if k < |ws| { assert ws'[k] == ws[k]; }
    }
  }

  const OP := "upload"
  const POISON := Request(OP, "{}")
  const ID: IntentId := "intent"

  /** The disk after `n` processes have died inside the body. */
  function AfterDeaths(n: nat): World {
    World(
      Table([ID], map[ID := Row(1, POISON, if n == 0 then Pending else InProgress, n, None, 0)]),
      map[], Loading, map[], map[ID := POISON], {},
      map[ID := Audit(n, 0, 0, 0, n, None)],
      seq(n, i => BodyCall(ID, POISON)))
  }

  lemma SelectsTheOne(n: nat)
    ensures AfterDeaths(n).table.Valid()
    ensures AfterDeaths(n).table.Select(UNFINISHED) == [ToIntent(ID, AfterDeaths(n).table.rows[ID])]
  {
    var t := AfterDeaths(n).table;
    assert [ID][1..] == [];
    assert Restrict(t.order, t.WithStatus(UNFINISHED)) == [ID];
  }

  /** The boot that follows `n` deaths, step by step, up to the next death. */
  function Boot(n: nat, j: nat): World {
    var w := AfterDeaths(n);
    var row := w.table.rows[ID];
    var called := Executor(ToIntent(ID, row), Some(1), 0, Called);
    var started := called.(attempt := n + 1, phase := Started);
    var t := w.table.(rows := map[ID := row.(status := InProgress, attempts := n + 1)]);
    var booted := w.(registry := map[OP := Some(1)]);
    if j == 0 then w
    else if j == 1 then booted
    else if j == 2 then booted.(mode := Replaying([ToIntent(ID, row)]))
    else if j == 3 then booted.(mode := Replaying([]), running := map[ID := called])
    else if j == 4 then booted.(mode := Replaying([]), running := map[ID := called.(phase := StartRead(row))])
    else if j == 5 then booted.(mode := Replaying([]), running := map[ID := started], table := t)
    else if j == 6 then
      booted.(mode := Replaying([]), running := map[ID := started.(phase := Running)], table := t,
              audits := map[ID := Audit(n + 1, 0, 0, 0, n, None)], calls := w.calls + [BodyCall(ID, POISON)])
    else AfterDeaths(n + 1)
  }

  function BootStep(j: nat): Step {
    if j == 0 then Register(OP, Some(1))
    else if j == 1 then BeginReplay
    else if j == 2 then ReplayNext
    else if j == 3 then ReadForStart(ID)
    else if j == 4 then WriteStart(ID, 0)
    else if j == 5 then CallBody(ID)
    else Crash
  }

  lemma BootGoes(n: nat, j: nat)
    requires j < 7 && Sane(Boot(n, j))
    ensures Enabled(Boot(n, j), BootStep(j)) && Next(Boot(n, j), BootStep(j)) == Boot(n, j + 1)
  {
    if j < 3 { BootReplays(n, j); } else if j < 6 { BootExecutes(n, j); } else { BootDies(n); }
  }

  lemma BootReplays(n: nat, j: nat)
    requires j < 3 && Sane(Boot(n, j))
    ensures Enabled(Boot(n, j), BootStep(j)) && Next(Boot(n, j), BootStep(j)) == Boot(n, j + 1)
  {
    SelectsTheOne(n);
    if j == 2 {
      assert DoReplayNext(Boot(n, 2)).mode.queue == [];
    }
  }

  lemma BootExecutes(n: nat, j: nat)
    requires 3 <= j < 6 && Sane(Boot(n, j))
    ensures Enabled(Boot(n, j), BootStep(j)) && Next(Boot(n, j), BootStep(j)) == Boot(n, j + 1)
  {
    if j == 3 { BootPlaces(n, 3); } else if j == 4 { BootPlaces(n, 4); } else { BootPlaces(n, 5); }
  }

  function LocalAt(n: nat, j: nat): Local
    requires 3 <= j <= 6
  {
    Local(Boot(n, j).table.rows[ID], Some(Boot(n, j).running[ID]), Boot(n, j).audits[ID])
  }

  lemma BootPlaces(n: nat, j: nat)
    requires j in {3, 4, 5} && Sane(Boot(n, j))
    ensures Enabled(Boot(n, j), BootStep(j)) && DoOwn(Boot(n, j), BootStep(j)) == Boot(n, j + 1)
  {
    hide Sane, Table.Valid, Place;
    var w, l := Boot(n, j), LocalAt(n, j);
    assert CanAdvance(l.executor.value, BootStep(j)) && Advance(l.row, l.executor.value, l.audit, BootStep(j)) == LocalAt(n, j + 1);
    PlaceOne(w, Boot(n, j + 1), LocalAt(n, j + 1));
  }

  lemma PlaceOne(w: World, w': World, l: Local)
    requires w.table.rows.Keys == w.running.Keys == w.audits.Keys == {ID} && l.executor.Some?
    requires w'.table.rows == map[ID := l.row] && w'.running == map[ID := l.executor.value] && w'.audits == map[ID := l.audit]
    requires w' == w.(table := w'.table, running := w'.running, audits := w'.audits, calls := w'.calls)
    requires w'.table.order == w.table.order
    ensures Place(w, ID, l).(calls := w'.calls) == w'
  {}

  lemma BootDies(n: nat)
    requires Sane(Boot(n, 6))
    ensures Enabled(Boot(n, 6), Crash) && Next(Boot(n, 6), Crash) == AfterDeaths(n + 1)
  {
    hide Sane, Inv;
    OneMoreDeath(n);
    var w, w' := DoCrash(Boot(n, 6)), AfterDeaths(n + 1);
    assert w.table.rows == w'.table.rows && w.audits == w'.audits;
  }

  lemma OneMoreDeath(n: nat)
    ensures AfterDeaths(n).calls + [BodyCall(ID, POISON)] == AfterDeaths(n + 1).calls
  {}

  lemma {:induction false} BootRuns(n: nat, j: nat, ws: seq<World>, steps: seq<Step>) returns (ws': seq<World>, steps': seq<Step>)
    requires j <= 7 && Behaviour(ws, steps) && ws[|steps|] == AfterDeaths(n)
    requires forall k :: 0 <= k < |ws| ==> LimitIs(ws[k], OP, 1)
    ensures Behaviour(ws', steps') && ws'[|steps'|] == Boot(n, j)
    ensures forall k :: 0 <= k < |ws'| ==> LimitIs(ws'[k], OP, 1)
  {
    hide Inv, Next, Enabled, Reached, AfterDeaths;
    if j == 0 {
      ws', steps' := ws, steps;
    } else {
      ws', steps' := BootRuns(n, j - 1, ws, steps);
      SaneAtEnd(ws', steps');
      BootGoes(n, j - 1);
      ws', steps' := Extend(ws', steps', BootStep(j - 1), OP, 1);
    }
  }

  lemma SaneAtEnd(ws: seq<World>, steps: seq<Step>)
    requires Behaviour(ws, steps)
    ensures Sane(ws[|steps|])
  {
    InvAlways(ws, steps, |steps|);
  }

  lemma RecordThenDie() returns (ws: seq<World>, steps: seq<Step>)
    ensures Behaviour(ws, steps) && ws[|steps|] == AfterDeaths(0)
    ensures forall k :: 0 <= k < |ws| ==> LimitIs(ws[k], OP, 1)
  {
    var w1 := START.(registry := map[OP := Some(1)]);
    var w2 := w1.(mode := Serving);
    var w3 := DoRecord(w2, ID, POISON, 0);
    FirstCallDies(w3);
    ws, steps := [START], [];
    ws, steps := Extend(ws, steps, Register(OP, Some(1)), OP, 1);
    assert ws[|steps|] == w1;
    ws, steps := Extend(ws, steps, SkipRecovery, OP, 1);
    assert ws[|steps|] == w2;
    ws, steps := Extend(ws, steps, Record(ID, POISON, 0), OP, 1);
    assert ws[|steps|] == w3;
    ws, steps := Extend(ws, steps, Crash, OP, 1);
  }

  lemma FirstCallDies(w: World)
    requires w == DoRecord(START.(registry := map[OP := Some(1)], mode := Serving), ID, POISON, 0)
    ensures DoCrash(w) == AfterDeaths(0)
  {
    assert DoCrash(w).table.order == [ID];
    assert DoCrash(w).table.rows == AfterDeaths(0).table.rows;
    assert DoCrash(w).audits == AfterDeaths(0).audits;
    assert DoCrash(w).calls == AfterDeaths(0).calls;
  }

  /** With max_attempts = 1, a body that kills the process each time is run again at every boot: its
      attempts and body starts grow without bound, and it stays in the replay set. */
  lemma {:induction false} PoisonIntentIsNeverGivenUp(n: nat) returns (ws: seq<World>, steps: seq<Step>)
    ensures Behaviour(ws, steps) && ws[|steps|] == AfterDeaths(n)
    ensures forall k :: 0 <= k < |ws| ==> LimitIs(ws[k], OP, 1)
    ensures ID in PendingIds(ws[|steps|].table) && ws[|steps|].table.rows[ID].attempts == n && |ws[|steps|].calls| == n
    decreases n
  {
    if n == 0 {
      ws, steps := RecordThenDie();
    } else {
      ws, steps := PoisonIntentIsNeverGivenUp(n - 1);
      ws, steps := BootRuns(n - 1, 7, ws, steps);
      assert Boot(n - 1, 7) == AfterDeaths(n);
    }
  }
}
