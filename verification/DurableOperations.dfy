/** The durable decorator and the startup replay, run without interference. */
module DurableOperations {
  import opened Options
  import opened Intents

  /** max_attempts: None retries for ever. */
  type Limit = Option<int>

  /** How the awaited function ends; a cancellation is not caught by `except Exception`. */
  datatype BodyOutcome = Returns | Raises(error: string) | Cancelled

  /** A journal write that raises has not taken effect. */
  datatype Fault = NoFault | StartWriteFails | FinishWriteFails

  /** One execution: how the body ends, the clock readings of the two journal writes, and which of them raises. */
  datatype Turn = Turn(outcome: BodyOutcome, began: int, ended: int, fault: Fault)

  datatype BodyCall = BodyCall(id: IntentId, request: Request)

  datatype DurableEvent =
    | StartedEvent(id: IntentId, attempt: nat)
    | CompletedEvent(id: IntentId)
    | RetryPendingEvent(id: IntentId, attempt: nat, error: string)
    | ExhaustedEvent(id: IntentId, attempt: nat, error: string)
    | UnhandledEvent(id: IntentId)

  datatype ExecuteResult =
    | Succeeded
    | Raised(error: string)
    | Exhausted(attempts: nat)
    | WriteFailed
    | Interrupted
    | Lost
    | NotStarted

  predicate Spent(limit: Limit, attempts: nat) {
    limit.Some? && attempts >= limit.value
  }

  /** What one execution of the body leaves in the journal. */
  function AfterExecution(row: Row, limit: Limit, turn: Turn): Row {
    var begun := Begun(row, turn.began);
    if turn.fault == StartWriteFails then row
    else if turn.fault == FinishWriteFails then begun
    else
      match turn.outcome
      case Returns => Done(begun, turn.ended)
      case Raises(error) =>
        if Spent(limit, begun.attempts) then GivenUp(begun, error, turn.ended) else Retriable(begun, error, turn.ended)
      case Cancelled => begun
  }

  function Verdict(row: Row, limit: Limit, turn: Turn): ExecuteResult {
    if turn.fault == StartWriteFails then WriteFailed
    else if turn.outcome == Cancelled then Interrupted
    else if turn.fault == FinishWriteFails then WriteFailed
    else
      match turn.outcome
      case Returns => Succeeded
      case Raises(error) => if Spent(limit, row.attempts + 1) then Exhausted(row.attempts + 1) else Raised(error)
  }

  function EventsOf(id: IntentId, row: Row, limit: Limit, turn: Turn): seq<DurableEvent> {
    var attempt := row.attempts + 1;
    if turn.fault == StartWriteFails then []
    else if turn.fault == FinishWriteFails then [StartedEvent(id, attempt)]
    else
      [StartedEvent(id, attempt)] +
      match turn.outcome
      case Returns => [CompletedEvent(id)]
      case Raises(error) =>
        if Spent(limit, attempt) then [ExhaustedEvent(id, attempt, error)] else [RetryPendingEvent(id, attempt, error)]
      case Cancelled => []
  }

  /** The body is called once the start of the attempt is in the journal. */
  function BodyCalls(id: IntentId, request: Request, turn: Turn): seq<BodyCall> {
    if turn.fault == StartWriteFails then [] else [BodyCall(id, request)]
  }

  /** An execution leaves the replay set exactly when the body returned or used up its attempts and the journal
      could say so; the attempt counts from the first write on, and no write touches the request. */
  lemma ExecutionSettles(row: Row, limit: Limit, turn: Turn)
    ensures var after := AfterExecution(row, limit, turn);
            && after.request == row.request && after.rowid == row.rowid
            && (turn.fault == StartWriteFails ==> after == row && Verdict(row, limit, turn) == WriteFailed)
            && (turn.fault != StartWriteFails ==>
                  && after.attempts == row.attempts + 1
                  && (after.status == Completed <==> turn.outcome == Returns && turn.fault == NoFault)
                  && (after.status == Failed <==>
                        turn.outcome.Raises? && turn.fault == NoFault && limit.Some? && limit.value <= after.attempts)
                  && (after.status == InProgress <==> turn.outcome == Cancelled || turn.fault == FinishWriteFails)
                  && (Verdict(row, limit, turn) == Exhausted(after.attempts) <==> after.status == Failed))
  {}

  /** What the caller is told, against how the execution went and the row it left. */
  predicate Tells(r: ExecuteResult, turn: Turn, after: Row) {
    && (r == Succeeded <==> turn.fault == NoFault && turn.outcome == Returns)
    && (r == Succeeded ==> after.status == Completed && after.lastError == None)
    && (r.Raised? <==> turn.fault == NoFault && turn.outcome.Raises? && after.status == Pending)
    && (r.Raised? ==> r.error == turn.outcome.error && after.lastError == Some(turn.outcome.error))
    && (r.Exhausted? <==> turn.fault == NoFault && turn.outcome.Raises? && after.status == Failed)
    && (r.Exhausted? ==> r.attempts == after.attempts && after.lastError == Some(turn.outcome.error))
    && (r == Interrupted <==> turn.fault != StartWriteFails && turn.outcome == Cancelled)
    && (r == WriteFailed <==> turn.fault == StartWriteFails || (turn.fault == FinishWriteFails && turn.outcome != Cancelled))
  }

  /** What is published: the start of the attempt, and then what the last write says, if there was one. */
  predicate Reports(events: seq<DurableEvent>, id: IntentId, turn: Turn, after: Row) {
    if turn.fault == StartWriteFails then events == []
    else
      && events != [] && events[0] == StartedEvent(id, after.attempts)
      && (after.status == InProgress <==> |events| == 1)
      && (after.status != InProgress ==> |events| == 2)
      && (after.status == Completed ==> events[1] == CompletedEvent(id))
      && (after.status == Pending ==> turn.outcome.Raises? && events[1] == RetryPendingEvent(id, after.attempts, turn.outcome.error))
      && (after.status == Failed ==> turn.outcome.Raises? && events[1] == ExhaustedEvent(id, after.attempts, turn.outcome.error))
  }

  /** The caller hears of exactly what the journal holds, and so do the subscribers. */
  lemma AnswerMatchesRow(id: IntentId, row: Row, limit: Limit, turn: Turn)
    ensures Tells(Verdict(row, limit, turn), turn, AfterExecution(row, limit, turn))
    ensures Reports(EventsOf(id, row, limit, turn), id, turn, AfterExecution(row, limit, turn))
  {}

  type Registry = map<string, Limit>

  /** The table after replaying one intent of the replay set; nothing happens without a handler. */
  function ReplayOne(t: Table, registry: Registry, script: Intent -> Turn, intent: Intent): Table {
    if intent.request.operation in registry && intent.id in t.rows
    then Put(t, intent.id, AfterExecution(t.rows[intent.id], registry[intent.request.operation], script(intent)))
    else t
  }

  /** The table after the first `n` intents of a replay set. */
  function ReplayFirst(t: Table, registry: Registry, script: Intent -> Turn, intents: seq<Intent>, n: nat): Table
    requires n <= |intents|
  {
    if n == 0 then t
    else ReplayOne(ReplayFirst(t, registry, script, intents, n - 1), registry, script, intents[n - 1])
  }

  function CallFor(registry: Registry, script: Intent -> Turn, intent: Intent): seq<BodyCall> {
    if intent.request.operation in registry then BodyCalls(intent.id, intent.request, script(intent)) else []
  }

  /** The body calls of the first `n` intents, in order. */
  function CallsFor(registry: Registry, script: Intent -> Turn, intents: seq<Intent>, n: nat): seq<BodyCall>
    requires n <= |intents|
  {
    if n == 0 then [] else CallsFor(registry, script, intents, n - 1) + CallFor(registry, script, intents[n - 1])
  }

  function HandlerFor(registry: Registry, intent: Intent): seq<IntentId> {
    if intent.request.operation in registry then [intent.id] else []
  }

  /** The handlers due for the first `n` intents: one per registered intent, in order. */
  function HandlersFor(registry: Registry, intents: seq<Intent>, n: nat): seq<IntentId>
    requires n <= |intents|
  {
    if n == 0 then [] else HandlersFor(registry, intents, n - 1) + HandlerFor(registry, intents[n - 1])
  }

  /** What replaying one intent publishes. */
  function EventsOfOne(t: Table, registry: Registry, script: Intent -> Turn, intent: Intent): seq<DurableEvent> {
    if intent.request.operation !in registry then [UnhandledEvent(intent.id)]
    else if intent.id in t.rows then EventsOf(intent.id, t.rows[intent.id], registry[intent.request.operation], script(intent))
    else []
  }

  function EventsFor(t: Table, registry: Registry, script: Intent -> Turn, intents: seq<Intent>, n: nat): seq<DurableEvent>
    requires n <= |intents|
  {
    if n == 0 then []
    else EventsFor(t, registry, script, intents, n - 1) +
         EventsOfOne(ReplayFirst(t, registry, script, intents, n - 1), registry, script, intents[n - 1])
  }

  /** The body is cancelled, which the replay loop does not survive. */
  predicate Interrupts(registry: Registry, script: Intent -> Turn, intent: Intent) {
    intent.request.operation in registry && script(intent).fault != StartWriteFails && script(intent).outcome == Cancelled
  }

  /** How many of the intents a replay reaches: up to the first one that is cancelled, or all of them. */
  function Reach(registry: Registry, script: Intent -> Turn, intents: seq<Intent>, from: nat): (n: nat)
    requires from <= |intents|
    ensures from <= n <= |intents|
    decreases |intents| - from
  {
    if from == |intents| then from
    else if Interrupts(registry, script, intents[from]) then from + 1
    else Reach(registry, script, intents, from + 1)
  }

  /** It reaches all of them, or stops at the first one that is cancelled. */
  lemma {:induction false} ReachStops(registry: Registry, script: Intent -> Turn, intents: seq<Intent>, from: nat)
    requires from <= |intents|
    ensures var n := Reach(registry, script, intents, from);
            && (forall i :: from <= i < n - 1 ==> !Interrupts(registry, script, intents[i]))
            && (n < |intents| ==> from < n && Interrupts(registry, script, intents[n - 1]))
    decreases |intents| - from
  {
    if from < |intents| {
      ReachStops(registry, script, intents, from + 1);
    }
  }

  lemma OneMoreReplayed(t: Table, registry: Registry, script: Intent -> Turn, intents: seq<Intent>, n: nat)
    requires n < |intents|
    ensures ReplayFirst(t, registry, script, intents, n + 1) ==
            ReplayOne(ReplayFirst(t, registry, script, intents, n), registry, script, intents[n])
    ensures ReplayFirst(t, registry, script, intents, n + 1).rows.Keys == ReplayFirst(t, registry, script, intents, n).rows.Keys
    ensures CallsFor(registry, script, intents, n + 1) ==
            CallsFor(registry, script, intents, n) + CallFor(registry, script, intents[n])
    ensures HandlersFor(registry, intents, n + 1) == HandlersFor(registry, intents, n) + HandlerFor(registry, intents[n])
    ensures EventsFor(t, registry, script, intents, n + 1) ==
            EventsFor(t, registry, script, intents, n) +
            EventsOfOne(ReplayFirst(t, registry, script, intents, n), registry, script, intents[n])
    ensures Reach(registry, script, intents, n) ==
            if Interrupts(registry, script, intents[n]) then n + 1 else Reach(registry, script, intents, n + 1)
  {}

  lemma NoneReplayed(t: Table, registry: Registry, script: Intent -> Turn, intents: seq<Intent>)
    ensures ReplayFirst(t, registry, script, intents, 0) == t
    ensures CallsFor(registry, script, intents, 0) == []
    ensures HandlersFor(registry, intents, 0) == []
    ensures EventsFor(t, registry, script, intents, 0) == []
    ensures Reach(registry, script, intents, |intents|) == |intents|
  {}

  lemma {:induction false} ReplayShape(t: Table, registry: Registry, script: Intent -> Turn, intents: seq<Intent>, n: nat)
    requires t.Valid() && n <= |intents|
    ensures var after := ReplayFirst(t, registry, script, intents, n);
            after.Valid() && after.order == t.order && after.rows.Keys == t.rows.Keys
  {
    if n > 0 {
      ReplayShape(t, registry, script, intents, n - 1);
      var before, last := ReplayFirst(t, registry, script, intents, n - 1), intents[n - 1];
      if last.request.operation in registry && last.id in before.rows {
        PutValid(before, last.id, AfterExecution(before.rows[last.id], registry[last.request.operation], script(last)));
      }
    }
  }

  /** A row that no replayed intent names is not touched. */
  lemma {:induction false} ReplayElsewhere(t: Table, registry: Registry, script: Intent -> Turn, intents: seq<Intent>, n: nat, id: IntentId)
    requires n <= |intents| && id in t.rows
    requires forall i :: 0 <= i < n ==> intents[i].id != id
    ensures id in ReplayFirst(t, registry, script, intents, n).rows
    ensures ReplayFirst(t, registry, script, intents, n).rows[id] == t.rows[id]
  {
    if n > 0 {
      ReplayElsewhere(t, registry, script, intents, n - 1, id);
      assert intents[n - 1].id != id;
    }
  }

  predicate DistinctIds(intents: seq<Intent>) {
    forall i, j :: 0 <= i < j < |intents| ==> intents[i].id != intents[j].id
  }

  /** Each replayed intent is executed once, on the row it had when the pass began. */
  lemma {:induction false} ReplayAt(t: Table, registry: Registry, script: Intent -> Turn, intents: seq<Intent>, n: nat, i: nat)
    requires i < n <= |intents| && DistinctIds(intents) && intents[i].id in t.rows
    ensures var intent := intents[i];
            var after := ReplayFirst(t, registry, script, intents, n);
            && intent.id in after.rows
            && after.rows[intent.id] ==
                 if intent.request.operation in registry
                 then AfterExecution(t.rows[intent.id], registry[intent.request.operation], script(intent))
                 else t.rows[intent.id]
  {
    if i == n - 1 {
      ReplayElsewhere(t, registry, script, intents, n - 1, intents[i].id);
    } else {
      ReplayAt(t, registry, script, intents, n - 1, i);
      assert intents[n - 1].id != intents[i].id;
    }
  }

  datatype RegistrationError = BadLimit(limit: int) | AlreadyRegistered(operation: string)

  class DurableRuntime {
    const journal: IntentJournal
    var registry: Registry
    /** Function bodies called, in order. */
    var calls: seq<BodyCall>
    /** Replay handlers called, in order. */
    var handlers: seq<IntentId>
    var events: seq<DurableEvent>

    constructor (journal: IntentJournal)
      ensures this.journal == journal && registry == map[] && calls == [] && handlers == [] && events == []
    {
      this.journal := journal;
      registry := map[];
      calls := [];
      handlers := [];
      events := [];
    }

    method Register(operation: string, maxAttempts: Limit) returns (r: Result<string, RegistrationError>)
      modifies this`registry
      ensures r.Ok? <==> (maxAttempts.Some? ==> 1 <= maxAttempts.value) && operation !in old(registry)
      ensures r.Ok? ==> registry == old(registry)[operation := maxAttempts]
      ensures r.Err? ==> registry == old(registry)
    {
      if maxAttempts.Some? && maxAttempts.value < 1 {
        return Err(BadLimit(maxAttempts.value));
      }
      if operation in registry {
        return Err(AlreadyRegistered(operation));
      }
      registry := registry[operation := maxAttempts];
      return Ok(operation);
    }

    method Execute(intent: Intent, limit: Limit, turn: Turn) returns (r: ExecuteResult)
      requires journal.store.Valid()
      modifies this`calls, this`events, journal.store
      ensures journal.store.Valid()
      ensures var t := old(journal.store.intents);
              if intent.id in t.rows then
                && journal.store.intents == Put(t, intent.id, AfterExecution(t.rows[intent.id], limit, turn))
                && r == Verdict(t.rows[intent.id], limit, turn)
                && events == old(events) + EventsOf(intent.id, t.rows[intent.id], limit, turn)
                && calls == old(calls) + BodyCalls(intent.id, intent.request, turn)
                && Tells(r, turn, journal.store.intents.rows[intent.id])
                && old(events) <= events
                && Reports(events[|old(events)|..], intent.id, turn, journal.store.intents.rows[intent.id])
              else
                && journal.store.intents == t && r == Lost
                && events == old(events) && calls == old(calls)
    {
      hide Table.Valid, Put, Tells, Reports;
      PutReads(journal.store.intents, intent.id);
      if intent.id in journal.store.intents.rows {
        AnswerMatchesRow(intent.id, journal.store.intents.rows[intent.id], limit, turn);
      }
      if turn.fault == StartWriteFails {
        var current := journal.Require(intent.id);
        return if current.Err? then Lost else WriteFailed;
      }
      var updated := journal.MarkInProgress(intent.id, turn.began);
      if updated.Err? {
        return Lost;
      }
      var attempts := updated.value.attempts;
      events := events + [StartedEvent(intent.id, attempts)];
      calls := calls + [BodyCall(intent.id, intent.request)];
      match turn.outcome
      case Cancelled =>
        return Interrupted;
      case Raises(error) =>
        if turn.fault == FinishWriteFails {
          return WriteFailed;
        }
        var exhausted := limit.Some? && attempts >= limit.value;
        if exhausted {
          var _ := journal.MarkFailed(intent.id, error, turn.ended);
          events := events + [ExhaustedEvent(intent.id, attempts, error)];
          return Exhausted(attempts);
        }
        var _ := journal.MarkPendingForRetry(intent.id, error, turn.ended);
        events := events + [RetryPendingEvent(intent.id, attempts, error)];
        return Raised(error);
      case Returns =>
        if turn.fault == FinishWriteFails {
          return WriteFailed;
        }
        var _ := journal.MarkCompleted(intent.id, turn.ended);
        events := events + [CompletedEvent(intent.id)];
        return Succeeded;
    }

    /** A live call: the gate on the runtime's state, then the journal, then the body. `now` is None when the
        insert raises. */
    method Invoke(isStarted: bool, id: IntentId, request: Request, now: Option<int>, turn: Turn) returns (r: ExecuteResult)
      requires journal.store.Valid()
      requires request.operation in registry
      requires id !in journal.store.intents.rows
      modifies this`calls, this`events, journal.store
      ensures journal.store.Valid()
      ensures !isStarted ==> r == NotStarted
      ensures isStarted && now.None? ==> r == WriteFailed
      ensures !isStarted || now.None? ==>
                journal.store.intents == old(journal.store.intents) && calls == old(calls) && events == old(events)
      ensures isStarted && now.Some? ==>
                var recorded := old(journal.store.intents).Insert(id, request, now.value);
                && journal.store.intents == Put(recorded, id, AfterExecution(recorded.rows[id], registry[request.operation], turn))
                && calls == old(calls) + BodyCalls(id, request, turn)
                && events == old(events) + EventsOf(id, recorded.rows[id], registry[request.operation], turn)
                && r == Verdict(recorded.rows[id], registry[request.operation], turn)
                && id in journal.store.intents.rows && Tells(r, turn, journal.store.intents.rows[id])
                && old(events) <= events && Reports(events[|old(events)|..], id, turn, journal.store.intents.rows[id])
    {
      if !isStarted {
        return NotStarted;
      }
      if now.None? {
        return WriteFailed;
      }
      var intent := journal.Record(id, request, now.value);
      r := Execute(intent.value, registry[request.operation], turn);
    }

    /** One round of the replay loop: an intent without a handler is reported and left alone. */
    method ReplayIntent(intent: Intent, script: Intent -> Turn) returns (cancelled: bool)
      requires journal.store.Valid() && intent.id in journal.store.intents.rows
      modifies this`calls, this`handlers, this`events, journal.store
      ensures journal.store.Valid()
      ensures journal.store.intents == ReplayOne(old(journal.store.intents), registry, script, intent)
      ensures calls == old(calls) + CallFor(registry, script, intent)
      ensures handlers == old(handlers) + HandlerFor(registry, intent)
      ensures events == old(events) + EventsOfOne(old(journal.store.intents), registry, script, intent)
      ensures intent.request.operation !in registry ==> events == old(events) + [UnhandledEvent(intent.id)]
      ensures cancelled <==> Interrupts(registry, script, intent)
    {
      if intent.request.operation !in registry {
        events := events + [UnhandledEvent(intent.id)];
        return false;
      }
      handlers := handlers + [intent.id];
      var result := Execute(intent, registry[intent.request.operation], script(intent));
      return result == Interrupted;
    }

    /**
     * The replay loop. Neither a body nor a journal write that raises stops it; a cancellation does.
     */
    method ReplayEach(todo: seq<Intent>, script: Intent -> Turn) returns (reached: nat, cancelled: bool)
      requires journal.store.Valid()
      requires forall i :: 0 <= i < |todo| ==> todo[i].id in journal.store.intents.rows
      modifies this`calls, this`handlers, this`events, journal.store
      ensures journal.store.Valid()
      ensures reached == Reach(registry, script, todo, 0)
      ensures journal.store.intents == ReplayFirst(old(journal.store.intents), registry, script, todo, reached)
      ensures calls == old(calls) + CallsFor(registry, script, todo, reached)
      ensures handlers == old(handlers) + HandlersFor(registry, todo, reached)
      ensures events == old(events) + EventsFor(old(journal.store.intents), registry, script, todo, reached)
      ensures cancelled <==> 0 < reached && Interrupts(registry, script, todo[reached - 1])
    {
      hide *;
      ghost var start := journal.store.intents;
      NoneReplayed(start, registry, script, todo);
      reached := 0;
      cancelled := false;
      while reached < |todo| && !cancelled
        invariant reached <= |todo| && (cancelled ==> 0 < reached)
        invariant journal.store.Valid()
        invariant journal.store.intents == ReplayFirst(start, registry, script, todo, reached)
        invariant forall i :: 0 <= i < |todo| ==> todo[i].id in journal.store.intents.rows
        invariant calls == old(calls) + CallsFor(registry, script, todo, reached)
        invariant handlers == old(handlers) + HandlersFor(registry, todo, reached)
        invariant events == old(events) + EventsFor(start, registry, script, todo, reached)
        invariant Reach(registry, script, todo, 0) == if cancelled then reached else Reach(registry, script, todo, reached)
        invariant 0 < reached ==> (cancelled <==> Interrupts(registry, script, todo[reached - 1]))
      {
        OneMoreReplayed(start, registry, script, todo, reached);
        cancelled := ReplayIntent(todo[reached], script);
        reached := reached + 1;
      }
    }

    /** Replays the unfinished intents of previous runs, oldest first. */
    method ReplayPending(script: Intent -> Turn) returns (reached: nat, cancelled: bool)
      requires journal.store.Valid()
      modifies this`calls, this`handlers, this`events, journal.store
      ensures journal.store.Valid()
      ensures var t := old(journal.store.intents);
              var todo := t.Select(UNFINISHED);
              && reached == Reach(registry, script, todo, 0)
              && journal.store.intents == ReplayFirst(t, registry, script, todo, reached)
              && calls == old(calls) + CallsFor(registry, script, todo, reached)
              && handlers == old(handlers) + HandlersFor(registry, todo, reached)
              && events == old(events) + EventsFor(t, registry, script, todo, reached)
              && (cancelled <==> 0 < reached && Interrupts(registry, script, todo[reached - 1]))
    {
      SelectUnfinished(journal.store.intents);
      var todo := journal.PendingIntents();
      reached, cancelled := ReplayEach(todo, script);
    }
  }
}
