/**
 * Durable operations as a protocol: any number of live calls and the startup replay interleave, a
 * journal method is a read followed by a write, and a crash may fall between any two steps.
 * The table survives a crash; everything else about a process is lost.
 */
module CrashRecovery {
  import opened Options
  import opened Intents
  import opened DurableOperations

  /** Where one call of `execute` stands. `seen` is the row a mark_* method has read and not yet rewritten. */
  datatype Phase =
    | Called
    | StartRead(seen: Row)
    | Started
    | Running
    | Ended(failure: Option<string>)
    | FinishRead(failure: Option<string>, seen: Row)

  datatype Executor = Executor(intent: Intent, limit: Limit, attempt: nat, phase: Phase)

  predicate PastStart(e: Executor) {
    !e.phase.Called? && !e.phase.StartRead?
  }

  predicate HasReturned(e: Executor) {
    (e.phase.Ended? || e.phase.FinishRead?) && e.phase.failure == None
  }

  /** A process registers its operations, replays what it finds, then serves live calls. A cancelled replay ends
      the boot. */
  datatype Mode = Loading | Replaying(queue: seq<Intent>) | Serving | Abandoned

  /** What has happened to one intent since it was recorded, over all processes. */
  datatype Audit = Audit(
    starts: nat,
    returned: nat,
    failures: nat,
    completions: nat,
    interruptions: nat,
    exhaustedAt: Limit)

  datatype World = World(
    table: Table,
    registry: Registry,
    mode: Mode,
    running: map<IntentId, Executor>,
    recorded: map<IntentId, Request>,
    pruned: set<IntentId>,
    audits: map<IntentId, Audit>,
    calls: seq<BodyCall>)

  datatype Step =
    | Register(operation: string, limit: Limit)
    | Record(id: IntentId, request: Request, now: int)
    | BeginReplay
    | SkipRecovery
    | ReplayNext
    | FinishReplay
    | ReadForStart(id: IntentId)
    | WriteStart(id: IntentId, now: int)
    | CallBody(id: IntentId)
    | BodyEnds(id: IntentId, failure: Option<string>)
    | ReadForFinish(id: IntentId)
    | WriteFinish(id: IntentId, now: int)
    | JournalFails(id: IntentId)
    | Cancel(id: IntentId)
    | AbandonReplay
    | Prune(cutoff: int)
    | Crash

  const START := World(EMPTY, map[], Loading, map[], map[], {}, map[], [])

  /** The executor an own step of intent `id` needs, by the phase it leaves. */
  predicate CanAdvance(e: Executor, s: Step) {
    match s
    case ReadForStart(_) => e.phase.Called?
    case WriteStart(_, _) => e.phase.StartRead?
    case CallBody(_) => e.phase.Started?
    case BodyEnds(_, _) => e.phase.Running?
    case ReadForFinish(_) => e.phase.Ended?
    case WriteFinish(_, _) => e.phase.FinishRead?
    case JournalFails(_) => e.phase.Called? || e.phase.StartRead? || e.phase.Ended? || e.phase.FinishRead?
    case Cancel(_) => true
    case _ => false
  }

  function Subject(s: Step): Option<IntentId> {
    match s
    case ReadForStart(id) => Some(id)
    case WriteStart(id, _) => Some(id)
    case CallBody(id) => Some(id)
    case BodyEnds(id, _) => Some(id)
    case ReadForFinish(id) => Some(id)
    case WriteFinish(id, _) => Some(id)
    case JournalFails(id) => Some(id)
    case Cancel(id) => Some(id)
    case _ => None
  }

  ghost predicate Enabled(w: World, s: Step) {
    match s
    case Register(operation, limit) => operation !in w.registry && (limit.Some? ==> 1 <= limit.value)
    case Record(id, request, _) => w.mode == Serving && request.operation in w.registry && id !in w.recorded
    case BeginReplay => w.mode == Loading
    case SkipRecovery => w.mode == Loading
    case ReplayNext => w.mode.Replaying? && w.running == map[] && w.mode.queue != []
    case FinishReplay => w.mode.Replaying? && w.running == map[] && w.mode.queue == []
    case AbandonReplay => w.mode.Replaying? && w.running == map[]
    case Prune(_) => true
    case Crash => true
    case _ => Subject(s).value in w.running && CanAdvance(w.running[Subject(s).value], s)
  }

  /** One intent: its row, the executor working on it if any, and its history. */
  datatype Local = Local(row: Row, executor: Option<Executor>, audit: Audit)

  function Interrupted(a: Audit, e: Executor): Audit {
    if PastStart(e) then a.(interruptions := a.interruptions + 1) else a
  }

  /** The step ends the execution of an intent early: a database operation raises, or the task is cancelled. */
  predicate EndsEarly(s: Step, id: IntentId) {
    s == JournalFails(id) || s == Cancel(id)
  }

  /** A step of `execute`; the writes use what was read, not what is there. */
  function Advance(row: Row, e: Executor, a: Audit, s: Step): Local
    requires CanAdvance(e, s)
  {
    match s
    case ReadForStart(_) => Local(row, Some(e.(phase := StartRead(row))), a)
    case WriteStart(_, now) =>
      var seen := e.phase.seen;
      Local(Rewrite(row, InProgress, seen.attempts + 1, seen.lastError, now),
            Some(e.(attempt := seen.attempts + 1, phase := Started)), a)
    case CallBody(_) => Local(row, Some(e.(phase := Running)), a.(starts := a.starts + 1))
    case BodyEnds(_, failure) =>
      Local(row, Some(e.(phase := Ended(failure))), if failure == None then a.(returned := a.returned + 1) else a)
    case ReadForFinish(_) => Local(row, Some(e.(phase := FinishRead(e.phase.failure, row))), a)
    case WriteFinish(_, now) =>
      var seen := e.phase.seen;
      (match e.phase.failure
       case None =>
         Local(Rewrite(row, Completed, seen.attempts, None, now), None, a.(completions := a.completions + 1))
       case Some(error) =>
         if Spent(e.limit, e.attempt) then
           Local(Rewrite(row, Failed, seen.attempts, Some(error), now), None,
                 a.(failures := a.failures + 1, exhaustedAt := e.limit))
         else
           Local(Rewrite(row, Pending, seen.attempts, Some(error), now), None, a.(failures := a.failures + 1)))
    case JournalFails(_) => Local(row, None, Interrupted(a, e))
    case Cancel(_) => Local(row, None, Interrupted(a, e))
  }

  function Place(w: World, id: IntentId, l: Local): World {
    w.(table := Put(w.table, id, l.row),
       running := if l.executor.Some? then w.running[id := l.executor.value] else w.running - {id},
       audits := w.audits[id := l.audit])
  }

  function DoOwn(w: World, s: Step): World
    requires Subject(s).Some?
    requires var id := Subject(s).value; id in w.table.rows && id in w.audits && id in w.running && CanAdvance(w.running[id], s)
  {
    var id := Subject(s).value;
    var e := w.running[id];
    Place(w, id, Advance(w.table.rows[id], e, w.audits[id], s))
      .(calls := if s.CallBody? then w.calls + [BodyCall(id, e.intent.request)] else w.calls,
        mode := if s.Cancel? && w.mode.Replaying? then Abandoned else w.mode)
  }

  function DoRecord(w: World, id: IntentId, request: Request, now: int): World
    requires w.table.Valid() && id !in w.table.rows && request.operation in w.registry
  {
    var intent := Intent(id, request, Pending, 0, None);
    w.(table := w.table.Insert(id, request, now),
       running := w.running[id := Executor(intent, w.registry[request.operation], 0, Called)],
       recorded := w.recorded[id := request],
       audits := w.audits[id := Audit(0, 0, 0, 0, 0, None)])
  }

  function DoReplayNext(w: World): World
    requires w.mode.Replaying? && w.mode.queue != []
  {
    var intent := w.mode.queue[0];
    var w' := w.(mode := Replaying(w.mode.queue[1..]));
    if intent.request.operation !in w.registry then w'
    else w'.(running := w.running[intent.id := Executor(intent, w.registry[intent.request.operation], 0, Called)])
  }

  function DoPrune(w: World, cutoff: int): World {
    w.(table := w.table.Prune(cutoff), pruned := w.pruned + w.table.Stale(cutoff))
  }

  function DoCrash(w: World): World {
    w.(registry := map[], mode := Loading, running := map[],
       audits := map id | id in w.audits :: if id in w.running then Interrupted(w.audits[id], w.running[id]) else w.audits[id])
  }

  /** What a step needs of the world beyond being enabled; part of the invariant below. */
  ghost predicate Sane(w: World) {
    && w.table.Valid()
    && w.table.rows.Keys <= w.recorded.Keys == w.audits.Keys
    && w.running.Keys <= w.table.rows.Keys
  }

  ghost function Next(w: World, s: Step): World
    requires Sane(w) && Enabled(w, s)
  {
    match s
    case Register(operation, limit) => w.(registry := w.registry[operation := limit])
    case Record(id, request, now) => DoRecord(w, id, request, now)
    case BeginReplay => w.(mode := Replaying(w.table.Select(UNFINISHED)))
    case SkipRecovery => w.(mode := Serving)
    case ReplayNext => DoReplayNext(w)
    case FinishReplay => w.(mode := Serving)
    case AbandonReplay => w.(mode := Abandoned)
    case Prune(cutoff) => DoPrune(w, cutoff)
    case Crash => DoCrash(w)
    case _ => DoOwn(w, s)
  }

  // The invariant.

  function One(b: bool): nat { if b then 1 else 0 }

  /** Every attempt on the row is accounted for: it failed, completed, was interrupted, or is under way. */
  predicate Accounted(row: Row, a: Audit, e: Option<Executor>) {
    var inFlight := e.Some? && PastStart(e.value);
    && row.attempts == a.failures + a.completions + a.interruptions + One(inFlight)
    && a.starts + One(e.Some? && e.value.phase == Started) <= row.attempts
    && a.returned <= a.starts
    && a.returned <= a.completions + a.interruptions + One(e.Some? && HasReturned(e.value))
    && a.returned + One(e.Some? && e.value.phase == Running) <= a.starts
    && (row.status == Pending ==> !inFlight && a.completions == 0)
    && (row.status == InProgress ==> a.completions == 0 && (inFlight || 0 < a.interruptions))
    && (row.status == Completed ==> e == None && a.completions == 1 && 1 <= a.returned)
    && (row.status == Failed ==> e == None && a.completions == 0 && 1 <= a.failures &&
                                 a.exhaustedAt.Some? && a.exhaustedAt.value <= row.attempts)
  }

  /** An executor works on its own row, and what it has read of it is still what is there. */
  predicate InStep(row: Row, e: Executor, a: Audit) {
    && e.intent.request == row.request
    && match e.phase
       case Called => row.status in UNFINISHED
       case StartRead(seen) => seen == row && row.status in UNFINISHED
       case Started => row.status == InProgress && row.attempts == e.attempt
       case Running => row.status == InProgress && row.attempts == e.attempt
       case Ended(failure) => row.status == InProgress && row.attempts == e.attempt && (failure == None ==> 1 <= a.returned)
       case FinishRead(failure, seen) =>
         row.status == InProgress && row.attempts == e.attempt && seen == row && (failure == None ==> 1 <= a.returned)
  }

  function ExecutorOf(w: World, id: IntentId): Option<Executor> {
    if id in w.running then Some(w.running[id]) else None
  }

  predicate IntentOk(w: World, id: IntentId) {
    && id in w.table.rows && id in w.recorded && id in w.audits && id !in w.pruned
    && w.table.rows[id].request == w.recorded[id]
    && Accounted(w.table.rows[id], w.audits[id], ExecutorOf(w, id))
    && (id in w.running ==> w.running[id].intent.id == id && InStep(w.table.rows[id], w.running[id], w.audits[id]))
  }

  predicate PrunedOk(w: World, id: IntentId) {
    id in w.recorded && id in w.audits && id !in w.running && w.audits[id].completions == 1 && 1 <= w.audits[id].returned
  }

  /** The replay queue holds distinct unfinished intents that nothing else is executing. */
  predicate QueueOk(w: World) {
    w.mode.Replaying? ==>
      && DistinctIds(w.mode.queue)
      && forall i :: 0 <= i < |w.mode.queue| ==>
           var intent := w.mode.queue[i];
           && intent.id in w.table.rows && intent.id !in w.running
           && w.table.rows[intent.id].status in UNFINISHED
           && w.table.rows[intent.id].request == intent.request
  }

  predicate IntentsOk(w: World) {
    && (forall id :: id in w.table.rows ==> IntentOk(w, id))
    && (forall id :: id in w.pruned ==> PrunedOk(w, id))
  }

  /** Every call of a body got the arguments that were recorded. */
  predicate CallsOk(w: World) {
    forall i :: 0 <= i < |w.calls| ==> w.calls[i].id in w.recorded && w.recorded[w.calls[i].id] == w.calls[i].request
  }

  ghost predicate Inv(w: World) {
    && Sane(w)
    && w.recorded.Keys == w.table.rows.Keys + w.pruned
    && IntentsOk(w)
    && CallsOk(w)
    && QueueOk(w)
    && (w.mode == Loading ==> w.running == map[])
  }

  lemma InvAtStart()
    ensures Inv(START)
  {}

  /** Nothing about this intent differs between the two worlds. */
  predicate SameFor(w: World, w': World, id: IntentId) {
    && (id in w.table.rows <==> id in w'.table.rows)
    && (id in w.table.rows ==> w'.table.rows[id] == w.table.rows[id])
    && (id in w.recorded <==> id in w'.recorded)
    && (id in w.recorded ==> w'.recorded[id] == w.recorded[id])
    && (id in w.audits <==> id in w'.audits)
    && (id in w.audits ==> w'.audits[id] == w.audits[id])
    && (id in w.pruned <==> id in w'.pruned)
    && ExecutorOf(w', id) == ExecutorOf(w, id)
  }

  lemma UnchangedIntent(w: World, w': World, id: IntentId)
    requires SameFor(w, w', id)
    ensures IntentOk(w', id) == IntentOk(w, id)
    ensures PrunedOk(w', id) == PrunedOk(w, id)
  {}

  lemma JustRecordedIsOk(row: Row, a: Audit, e: Executor)
    requires row.status == Pending && row.attempts == 0 && a == Audit(0, 0, 0, 0, 0, None)
    requires e.phase == Called && e.intent.request == row.request
    ensures Accounted(row, a, Some(e)) && InStep(row, e, a)
  {}

  lemma InvAfterRecord(w: World, id: IntentId, request: Request, now: int)
    requires Inv(w) && Enabled(w, Record(id, request, now))
    ensures Inv(DoRecord(w, id, request, now))
  {
    hide Accounted, InStep, Table.Valid;
    var w' := DoRecord(w, id, request, now);
    forall other | other in w'.table.rows ensures IntentOk(w', other) {
      if other != id {
        UnchangedIntent(w, w', other);
      } else {
        JustRecordedIsOk(w'.table.rows[id], w'.audits[id], w'.running[id]);
      }
    }
    forall other | other in w'.pruned ensures PrunedOk(w', other) { UnchangedIntent(w, w', other); }
  }

  lemma InvAfterBeginReplay(w: World)
    requires Inv(w) && Enabled(w, BeginReplay)
    ensures Inv(w.(mode := Replaying(w.table.Select(UNFINISHED))))
  {
    var w' := w.(mode := Replaying(w.table.Select(UNFINISHED)));
    SelectUnfinished(w.table);
    forall id | id in w'.table.rows ensures IntentOk(w', id) { assert IntentOk(w, id); }
    forall id | id in w'.pruned ensures PrunedOk(w', id) { assert PrunedOk(w, id); }
  }

  lemma ReplayNextKeepsQueue(w: World)
    requires QueueOk(w) && Enabled(w, ReplayNext)
    ensures QueueOk(DoReplayNext(w))
  {
    var w' := DoReplayNext(w);
    assert forall i :: 0 <= i < |w'.mode.queue| ==> w'.mode.queue[i] == w.mode.queue[i + 1];
  }

  /** A freshly called executor neither changes its row nor counts as an attempt. */
  lemma CalledIsOk(row: Row, a: Audit, e: Executor)
    requires Accounted(row, a, None) && row.status in UNFINISHED && e.phase == Called && e.intent.request == row.request
    ensures Accounted(row, a, Some(e)) && InStep(row, e, a)
  {}

  lemma ReplayNextKeepsIntents(w: World)
    requires IntentsOk(w) && QueueOk(w) && Enabled(w, ReplayNext)
    ensures IntentsOk(DoReplayNext(w))
  {
    hide Accounted, InStep;
    var w' := DoReplayNext(w);
    var intent := w.mode.queue[0];
    forall id | id in w'.table.rows ensures IntentOk(w', id) {
      assert IntentOk(w, id);
      if id == intent.id && id in w'.running {
        CalledIsOk(w.table.rows[id], w.audits[id], w'.running[id]);
      }
    }
    forall id | id in w'.pruned ensures PrunedOk(w', id) {
      assert PrunedOk(w, id) && IntentOk(w, intent.id);
    }
  }

  lemma InvAfterReplayNext(w: World)
    requires Inv(w) && Enabled(w, ReplayNext)
    ensures Inv(DoReplayNext(w))
  {
    hide IntentsOk, QueueOk;
    QueueHeadHasRow(w);
    ReplayNextKeepsIntents(w);
    ReplayNextKeepsQueue(w);
  }

  lemma QueueHeadHasRow(w: World)
    requires QueueOk(w) && Enabled(w, ReplayNext)
    ensures w.mode.queue[0].id in w.table.rows
  {}

  /** What the invariant says of one intent, on its own. */
  predicate LocalOk(id: IntentId, request: Request, l: Local) {
    && l.row.request == request
    && Accounted(l.row, l.audit, l.executor)
    && (l.executor.Some? ==> l.executor.value.intent.id == id && InStep(l.row, l.executor.value, l.audit))
  }

  lemma AdvanceKeepsLocal(id: IntentId, request: Request, row: Row, e: Executor, a: Audit, s: Step)
    requires CanAdvance(e, s) && LocalOk(id, request, Local(row, Some(e), a))
    ensures LocalOk(id, request, Advance(row, e, a, s))
    ensures Advance(row, e, a, s).row.rowid == row.rowid
  {}

  lemma PlaceKeepsShape(w: World, id: IntentId, l: Local)
    requires Sane(w) && QueueOk(w) && id in w.running
    requires l.row.rowid == w.table.rows[id].rowid
    ensures Sane(Place(w, id, l)) && QueueOk(Place(w, id, l))
  {
    PutValid(w.table, id, l.row);
  }

  lemma PlaceElsewhere(w: World, id: IntentId, l: Local, other: IntentId)
    requires other != id
    ensures IntentOk(w, other) ==> IntentOk(Place(w, id, l), other)
    ensures PrunedOk(w, other) ==> PrunedOk(Place(w, id, l), other)
  {
    UnchangedIntent(w, Place(w, id, l), other);
  }

  lemma PlaceHere(w: World, id: IntentId, l: Local)
    requires IntentOk(w, id) && LocalOk(id, w.table.rows[id].request, l)
    ensures IntentOk(Place(w, id, l), id)
  {
    assert ExecutorOf(Place(w, id, l), id) == l.executor;
  }

  lemma PlaceKeepsIntents(w: World, id: IntentId, l: Local)
    requires IntentsOk(w) && id in w.table.rows && LocalOk(id, w.table.rows[id].request, l)
    ensures IntentsOk(Place(w, id, l))
  {
    var w' := Place(w, id, l);
    forall other | other in w'.table.rows ensures IntentOk(w', other) {
      assert IntentOk(w, other);
      if other == id { PlaceHere(w, id, l); } else { PlaceElsewhere(w, id, l, other); }
    }
    forall other | other in w'.pruned ensures PrunedOk(w', other) {
      assert PrunedOk(w, other);
      assert IntentOk(w, id);
      PlaceElsewhere(w, id, l, other);
    }
  }

  /** Replacing one intent's part of the world by one that is in order keeps the invariant. */
  lemma InvAfterPlace(w: World, id: IntentId, l: Local)
    requires Inv(w) && id in w.running
    requires LocalOk(id, w.table.rows[id].request, l) && l.row.rowid == w.table.rows[id].rowid
    ensures Inv(Place(w, id, l))
  {
    hide IntentsOk, QueueOk, LocalOk, Table.Valid;
    PlaceKeepsShape(w, id, l);
    PlaceKeepsIntents(w, id, l);
  }

  lemma CompletedIsDone(row: Row, a: Audit, e: Option<Executor>)
    requires Accounted(row, a, e) && row.status == Completed
    ensures e == None && a.completions == 1 && 1 <= a.returned
  {}

  lemma RunningIsUnfinished(row: Row, e: Executor, a: Audit)
    requires InStep(row, e, a)
    ensures row.status in UNFINISHED
  {}

  lemma InvAfterPrune(w: World, cutoff: int)
    requires Inv(w)
    ensures Inv(DoPrune(w, cutoff))
  {
    hide Accounted, InStep, Table.Valid;
    var w' := DoPrune(w, cutoff);
    forall id | id in w'.table.rows ensures IntentOk(w', id) { assert IntentOk(w, id); }
    forall id | id in w'.pruned ensures PrunedOk(w', id) {
      if id in w.pruned {
        assert PrunedOk(w, id);
      } else {
        assert IntentOk(w, id);
        CompletedIsDone(w.table.rows[id], w.audits[id], ExecutorOf(w, id));
      }
    }
    forall id | id in w.running ensures id in w'.table.rows {
      assert IntentOk(w, id);
      RunningIsUnfinished(w.table.rows[id], w.running[id], w.audits[id]);
    }
  }

  /** An attempt cut short is accounted for as an interruption. */
  lemma CutShortIsOk(row: Row, a: Audit, e: Executor)
    requires Accounted(row, a, Some(e)) && InStep(row, e, a)
    ensures Accounted(row, Interrupted(a, e), None)
  {}

  lemma InvAfterCrash(w: World)
    requires Inv(w)
    ensures Inv(DoCrash(w))
  {
    hide Accounted, InStep, Interrupted, Table.Valid;
    var w' := DoCrash(w);
    forall id | id in w'.table.rows ensures IntentOk(w', id) {
      assert IntentOk(w, id);
      if id in w.running {
        CutShortIsOk(w.table.rows[id], w.audits[id], w.running[id]);
      }
    }
    InterruptedKeepsCounts();
    forall id | id in w'.pruned ensures PrunedOk(w', id) { assert PrunedOk(w, id); }
  }

  lemma InterruptedKeepsCounts()
    ensures forall a, e :: Interrupted(a, e).completions == a.completions && Interrupted(a, e).returned == a.returned
  {}

  lemma OneMoreCall(w: World, w': World, call: BodyCall)
    requires CallsOk(w) && w'.recorded == w.recorded
    requires w'.calls == w.calls || w'.calls == w.calls + [call]
    requires call.id in w.recorded && w.recorded[call.id] == call.request
    ensures CallsOk(w')
  {}

  lemma InvAfterOwn(w: World, s: Step)
    requires Inv(w) && Enabled(w, s) && Subject(s).Some?
    ensures Inv(DoOwn(w, s))
  {
    hide Accounted, Advance, Table.Valid, QueueOk;
    var id := Subject(s).value;
    assert IntentOk(w, id);
    var row, e, a := w.table.rows[id], w.running[id], w.audits[id];
    var l := Advance(row, e, a, s);
    assert LocalOk(id, row.request, l) && l.row.rowid == row.rowid by {
      AdvanceKeepsLocal(id, row.request, row, e, a, s);
    }
    var placed, w' := Place(w, id, l), DoOwn(w, s);
    assert Inv(placed) by {
      InvAfterPlace(w, id, l);
    }
    OneMoreCall(placed, w', BodyCall(id, e.intent.request));
    SameIntents(placed, w');
  }

  /** Only the registry, the mode and the log of calls differ. */
  lemma SameIntents(w: World, w': World)
    requires Inv(w)
    requires w' == w.(registry := w'.registry, mode := w'.mode, calls := w'.calls) && (w'.mode == w.mode || w'.mode == Serving || w'.mode == Abandoned)
    requires CallsOk(w')
    ensures Inv(w')
  {
    forall id | id in w'.table.rows ensures IntentOk(w', id) { UnchangedIntent(w, w', id); }
    forall id | id in w'.pruned ensures PrunedOk(w', id) { UnchangedIntent(w, w', id); }
  }

  lemma SameIntentsAndCalls(w: World, w': World)
    requires Inv(w)
    requires w' == w.(registry := w'.registry, mode := w'.mode)
    requires w'.mode == w.mode || w'.mode == Serving || w'.mode == Abandoned
    ensures Inv(w')
  {
    SameIntents(w, w');
  }

  lemma SaneByInv(w: World)
    requires Inv(w)
    ensures Sane(w)
  {}

  lemma StepKeepsInv(w: World, s: Step)
    requires Inv(w) && Enabled(w, s)
    ensures Sane(w) && Inv(Next(w, s))
  {
    hide Inv, Sane, Table.Valid, DoOwn, DoRecord, DoReplayNext, DoPrune, DoCrash, CanAdvance;
    SaneByInv(w);
    var w' := Next(w, s);
    match s
    case Register(_, _) => SameIntentsAndCalls(w, w');
    case SkipRecovery => SameIntentsAndCalls(w, w');
    case FinishReplay => SameIntentsAndCalls(w, w');
    case AbandonReplay => SameIntentsAndCalls(w, w');
    case Record(id, request, now) => InvAfterRecord(w, id, request, now);
    case BeginReplay => InvAfterBeginReplay(w);
    case ReplayNext => InvAfterReplayNext(w);
    case Prune(cutoff) => InvAfterPrune(w, cutoff);
    case Crash => InvAfterCrash(w);
    case _ => InvAfterOwn(w, s);
  }
}
