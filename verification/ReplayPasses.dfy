/** What one replay pass, and what several, do to the replay set. */
module ReplayPasses {
  import opened Options
  import opened Sequences
  import opened Intents
  import opened DurableOperations

  function Todo(t: Table): seq<Intent>
    requires t.Valid()
  {
    t.Select(UNFINISHED)
  }

  /** How many of the unfinished intents a pass reaches. */
  function PassReach(t: Table, registry: Registry, script: Intent -> Turn): (n: nat)
    requires t.Valid()
    ensures n <= |Todo(t)|
  {
    Reach(registry, script, Todo(t), 0)
  }

  /** What ReplayPending makes of a table. */
  function AfterPass(t: Table, registry: Registry, script: Intent -> Turn): (after: Table)
    requires t.Valid()
    ensures after.Valid() && after.order == t.order && after.rows.Keys == t.rows.Keys
  {
    ReplayShape(t, registry, script, Todo(t), PassReach(t, registry, script));
    ReplayFirst(t, registry, script, Todo(t), PassReach(t, registry, script))
  }

  /** The pass runs to its end: no body is cancelled. */
  predicate Uninterrupted(t: Table, registry: Registry, script: Intent -> Turn)
    requires t.Valid()
  {
    forall i :: 0 <= i < |Todo(t)| ==> !Interrupts(registry, script, Todo(t)[i])
  }

  /** A replay reaches every intent exactly if no body but the last one is cancelled; what raises does not count. */
  lemma ReachesAllIff(registry: Registry, script: Intent -> Turn, intents: seq<Intent>)
    ensures Reach(registry, script, intents, 0) == |intents| <==>
            forall i :: 0 <= i < |intents| - 1 ==> !Interrupts(registry, script, intents[i])
  {
    ReachStops(registry, script, intents, 0);
    var n := Reach(registry, script, intents, 0);
    if n < |intents| {
      assert Interrupts(registry, script, intents[n - 1]);
    }
  }

  /** The same of a pass over a table. */
  lemma PassReachesAllIff(t: Table, registry: Registry, script: Intent -> Turn)
    requires t.Valid()
    ensures PassReach(t, registry, script) == |Todo(t)| <==>
            forall i :: 0 <= i < |Todo(t)| - 1 ==> !Interrupts(registry, script, Todo(t)[i])
    ensures Uninterrupted(t, registry, script) ==> PassReach(t, registry, script) == |Todo(t)|
  {
    ReachesAllIff(registry, script, Todo(t));
  }

  function Registered(t: Table, registry: Registry): set<IntentId> {
    set id | id in t.rows && t.rows[id].request.operation in registry
  }

  lemma RestrictOneMore(ids: seq<IntentId>, n: nat, keep: set<IntentId>)
    requires n < |ids|
    ensures Restrict(ids[..n + 1], keep) == Restrict(ids[..n], keep) + if ids[n] in keep then [ids[n]] else []
  {
    assert ids[..n + 1] == ids[..n] + [ids[n]];
    RestrictAppend(ids[..n], [ids[n]], keep);
    assert [ids[n]][1..] == [];
    assert Restrict([ids[n]], keep) == if ids[n] in keep then [ids[n]] else [];
  }

  predicate CallsMatch(rows: map<IntentId, Row>, calls: seq<BodyCall>, ids: seq<IntentId>) {
    |calls| == |ids| && forall i :: 0 <= i < |ids| ==> ids[i] in rows && calls[i] == BodyCall(ids[i], rows[ids[i]].request)
  }

  /** The intents among them whose first journal write succeeds. */
  function Begin(t: Table, script: Intent -> Turn): set<IntentId> {
    set id | id in t.rows && script(ToIntent(id, t.rows[id])).fault != StartWriteFails
  }

  lemma CallsMatchConcat(rows: map<IntentId, Row>, calls: seq<BodyCall>, ids: seq<IntentId>, calls': seq<BodyCall>, ids': seq<IntentId>)
    requires CallsMatch(rows, calls, ids) && CallsMatch(rows, calls', ids')
    ensures CallsMatch(rows, calls + calls', ids + ids')
  {}

  lemma {:induction false} HandlersAreRestriction(
    rows: map<IntentId, Row>, registry: Registry, intents: seq<Intent>, ids: seq<IntentId>, keep: set<IntentId>, n: nat)
    requires n <= |intents| == |ids|
    requires forall i :: 0 <= i < |ids| ==> ids[i] in rows && intents[i] == ToIntent(ids[i], rows[ids[i]])
    requires forall i :: 0 <= i < |ids| ==> (ids[i] in keep <==> rows[ids[i]].request.operation in registry)
    ensures HandlersFor(registry, intents, n) == Restrict(ids[..n], keep)
  {
    if n > 0 {
      HandlersAreRestriction(rows, registry, intents, ids, keep, n - 1);
      RestrictOneMore(ids, n - 1, keep);
    }
  }

  /** The body calls for a list of intents are their ids, restricted to those that have a handler and begin. */
  lemma {:induction false} CallsAreRestriction(
    rows: map<IntentId, Row>, registry: Registry, script: Intent -> Turn, intents: seq<Intent>, ids: seq<IntentId>,
    keep: set<IntentId>, n: nat)
    requires n <= |intents| == |ids|
    requires forall i :: 0 <= i < |ids| ==> ids[i] in rows && intents[i] == ToIntent(ids[i], rows[ids[i]])
    requires forall i :: 0 <= i < |ids| ==>
               (ids[i] in keep <==> rows[ids[i]].request.operation in registry && script(intents[i]).fault != StartWriteFails)
    ensures CallsMatch(rows, CallsFor(registry, script, intents, n), Restrict(ids[..n], keep))
  {
    hide Restrict, CallsMatch, CallFor;
    if n == 0 {
      NoCallsMatch(rows, ids, keep);
    } else {
      CallsAreRestriction(rows, registry, script, intents, ids, keep, n - 1);
      RestrictOneMore(ids, n - 1, keep);
      var due, last := Restrict(ids[..n - 1], keep), if ids[n - 1] in keep then [ids[n - 1]] else [];
      CallMatches(rows, registry, script, intents[n - 1], last);
      CallsMatchConcat(rows, CallsFor(registry, script, intents, n - 1), due, CallFor(registry, script, intents[n - 1]), last);
    }
  }

  lemma NoCallsMatch(rows: map<IntentId, Row>, ids: seq<IntentId>, keep: set<IntentId>)
    ensures CallsMatch(rows, [], Restrict(ids[..0], keep))
  {}

  lemma CallMatches(rows: map<IntentId, Row>, registry: Registry, script: Intent -> Turn, intent: Intent, ids: seq<IntentId>)
    requires intent.id in rows && rows[intent.id].request == intent.request
    requires ids == if intent.request.operation in registry && script(intent).fault != StartWriteFails then [intent.id] else []
    ensures CallsMatch(rows, CallFor(registry, script, intent), ids)
  {}

  /** The unfinished intents with a handler, oldest first. */
  function Due(t: Table, registry: Registry): seq<IntentId> {
    Restrict(t.order, t.WithStatus(UNFINISHED) * Registered(t, registry))
  }

  lemma DueIsRestrictedReplaySet(t: Table, registry: Registry)
    requires t.Valid()
    ensures Distinct(Due(t, registry)) && Due(t, registry) == Restrict(PendingIds(t), Registered(t, registry))
  {
    RestrictTwice(t.order, t.WithStatus(UNFINISHED), Registered(t, registry));
    RestrictDistinct(t.order, t.WithStatus(UNFINISHED) * Registered(t, registry));
  }

  lemma HandlersAreDue(t: Table, registry: Registry)
    requires t.Valid()
    ensures Distinct(Due(t, registry)) && HandlersFor(registry, Todo(t), |Todo(t)|) == Due(t, registry)
  {
    SelectUnfinished(t);
    DueIsRestrictedReplaySet(t, registry);
    HandlersAreRestriction(t.rows, registry, Todo(t), PendingIds(t), Registered(t, registry), |Todo(t)|);
    assert PendingIds(t)[..|Todo(t)|] == PendingIds(t);
  }

  /** A pass calls the handler of each registered unfinished intent exactly once, oldest first, up to a
      cancellation; the body follows, with the recorded arguments, unless the first journal write raises. */
  lemma PassCallsEachRegisteredOnce(t: Table, registry: Registry, script: Intent -> Turn)
    requires t.Valid()
    ensures Distinct(Due(t, registry))
    ensures var n := PassReach(t, registry, script);
            && n <= |PendingIds(t)|
            && HandlersFor(registry, Todo(t), n) == Restrict(PendingIds(t)[..n], Registered(t, registry))
            && (Uninterrupted(t, registry, script) ==> HandlersFor(registry, Todo(t), n) == Due(t, registry))
            && CallsMatch(t.rows, CallsFor(registry, script, Todo(t), n),
                          Restrict(PendingIds(t)[..n], Registered(t, registry) * Begin(t, script)))
  {
    SelectUnfinished(t);
    DueIsRestrictedReplaySet(t, registry);
    var todo, ids, n := Todo(t), PendingIds(t), PassReach(t, registry, script);
    HandlersAreRestriction(t.rows, registry, todo, ids, Registered(t, registry), n);
    CallsAreRestriction(t.rows, registry, script, todo, ids, Registered(t, registry) * Begin(t, script), n);
    if Uninterrupted(t, registry, script) {
      PassReachesAllIff(t, registry, script);
      assert ids[..n] == ids;
    }
  }

  /** The row an intent has after being replayed, as a function of the row it had before. */
  function PassRow(id: IntentId, row: Row, registry: Registry, script: Intent -> Turn): Row {
    if row.status in UNFINISHED && row.request.operation in registry
    then AfterExecution(row, registry[row.request.operation], script(ToIntent(id, row)))
    else row
  }

  /** The pass gets as far as this intent. */
  predicate GetsTo(t: Table, registry: Registry, script: Intent -> Turn, id: IntentId)
    requires t.Valid()
  {
    exists i :: 0 <= i < PassReach(t, registry, script) && Todo(t)[i].id == id
  }

  /** A row after the pass depends on that row before it and on whether the pass got that far. */
  lemma PassIsPointwise(t: Table, registry: Registry, script: Intent -> Turn, id: IntentId)
    requires t.Valid() && id in t.rows
    ensures var after := AfterPass(t, registry, script);
            && after.Valid() && after.order == t.order && after.rows.Keys == t.rows.Keys
            && after.rows[id] == if GetsTo(t, registry, script, id) then PassRow(id, t.rows[id], registry, script) else t.rows[id]
    ensures Uninterrupted(t, registry, script) ==> (GetsTo(t, registry, script, id) <==> t.rows[id].status in UNFINISHED)
  {
    hide AfterExecution, ReplayFirst, Reach, Interrupts;
    var todo, n := Todo(t), PassReach(t, registry, script);
    SelectUnfinished(t);
    ReplayShape(t, registry, script, todo, n);
    if GetsTo(t, registry, script, id) {
      var i :| 0 <= i < n && todo[i].id == id;
      ReplayAt(t, registry, script, todo, n, i);
    } else {
      ReplayElsewhere(t, registry, script, todo, n, id);
    }
    if Uninterrupted(t, registry, script) {
      PassReachesAllIff(t, registry, script);
    }
  }

  lemma UninterruptedRow(t: Table, registry: Registry, script: Intent -> Turn, id: IntentId)
    requires t.Valid() && Uninterrupted(t, registry, script)
    requires id in t.rows && t.rows[id].status in UNFINISHED && t.rows[id].request.operation in registry
    ensures var turn := script(ToIntent(id, t.rows[id])); turn.outcome != Cancelled || turn.fault == StartWriteFails
  {
    SelectUnfinished(t);
    var i :| 0 <= i < |Todo(t)| && Todo(t)[i].id == id;
    assert !Interrupts(registry, script, Todo(t)[i]);
  }

  /** Left for a later pass: no handler, a journal write that raised, or a body that raised with attempts to spare. */
  predicate LeftOver(id: IntentId, row: Row, registry: Registry, script: Intent -> Turn) {
    var turn := script(ToIntent(id, row));
    || row.request.operation !in registry
    || turn.fault != NoFault
    || (turn.outcome.Raises? && !Spent(registry[row.request.operation], row.attempts + 1))
  }

  function LeftOvers(t: Table, registry: Registry, script: Intent -> Turn): set<IntentId> {
    set id | id in t.rows && LeftOver(id, t.rows[id], registry, script)
  }

  lemma StillUnfinished(t: Table, registry: Registry, script: Intent -> Turn, id: IntentId)
    requires t.Valid() && Uninterrupted(t, registry, script) && id in t.rows
    ensures id in AfterPass(t, registry, script).WithStatus(UNFINISHED) <==>
            id in t.WithStatus(UNFINISHED) * LeftOvers(t, registry, script)
  {
    PassIsPointwise(t, registry, script, id);
    var row := t.rows[id];
    if row.status in UNFINISHED && row.request.operation in registry {
      UninterruptedRow(t, registry, script, id);
      assert PassRow(id, row, registry, script).status in UNFINISHED <==> LeftOver(id, row, registry, script);
    }
  }

  /** After an uninterrupted pass the replay set is exactly the unregistered intents, those whose journal write
      raised and those that failed with attempts left, in their old order; unregistered rows are as they were. */
  lemma ReplaySetAfterPass(t: Table, registry: Registry, script: Intent -> Turn)
    requires t.Valid() && Uninterrupted(t, registry, script)
    ensures PendingIds(AfterPass(t, registry, script)) == Restrict(PendingIds(t), LeftOvers(t, registry, script))
    ensures forall id :: id in t.rows && id !in Registered(t, registry) ==>
              id in AfterPass(t, registry, script).rows && AfterPass(t, registry, script).rows[id] == t.rows[id]
  {
    var after := AfterPass(t, registry, script);
    var kept := t.WithStatus(UNFINISHED) * LeftOvers(t, registry, script);
    forall id | id in t.order ensures id in after.WithStatus(UNFINISHED) <==> id in kept {
      StillUnfinished(t, registry, script, id);
    }
    forall id | id in t.rows && id !in Registered(t, registry)
      ensures id in after.rows && after.rows[id] == t.rows[id]
    {
      PassIsPointwise(t, registry, script, id);
    }
    RestrictTwice(t.order, t.WithStatus(UNFINISHED), LeftOvers(t, registry, script));
    RestrictSame(t.order, after.WithStatus(UNFINISHED), kept);
  }

  // Several boots in a row, each with its own behaviour of the bodies.

  function AfterPasses(t: Table, registry: Registry, scripts: seq<Intent -> Turn>, n: nat): (after: Table)
    requires t.Valid() && n <= |scripts|
    ensures after.Valid()
  {
    if n == 0 then t else AfterPass(AfterPasses(t, registry, scripts, n - 1), registry, scripts[n - 1])
  }

  /** Neither a cancellation nor a raising journal write. */
  predicate Clean(t: Table, registry: Registry, script: Intent -> Turn)
    requires t.Valid()
  {
    && Uninterrupted(t, registry, script)
    && forall i :: 0 <= i < |Todo(t)| ==> script(Todo(t)[i]).fault == NoFault
  }

  predicate AllClean(t: Table, registry: Registry, scripts: seq<Intent -> Turn>, n: nat)
    requires t.Valid() && n <= |scripts|
  {
    n > 0 ==>
      && AllClean(t, registry, scripts, n - 1)
      && Clean(AfterPasses(t, registry, scripts, n - 1), registry, scripts[n - 1])
  }

  lemma CleanRow(t: Table, registry: Registry, script: Intent -> Turn, id: IntentId)
    requires t.Valid() && Clean(t, registry, script)
    requires id in t.rows && t.rows[id].status in UNFINISHED
    ensures script(ToIntent(id, t.rows[id])).fault == NoFault
  {
    SelectUnfinished(t);
    var i :| 0 <= i < |Todo(t)| && Todo(t)[i].id == id;
    assert script(Todo(t)[i]).fault == NoFault;
  }

  /** Replays still possible before the limit is reached; an interrupted row may already be past it. */
  function Remaining(row: Row, limit: nat): nat {
    if row.attempts < limit then limit - row.attempts else 1
  }

  /** `after` is where `row` can stand after `n` clean passes with the given limit. */
  predicate Progress(row: Row, after: Row, limit: nat, n: nat) {
    && after.request == row.request
    && after.attempts <= row.attempts + n
    && (row.status !in UNFINISHED ==> after == row)
    && (after.status in UNFINISHED ==> after.attempts == row.attempts + n && n < Remaining(row, limit))
  }

  lemma PassMakesProgress(id: IntentId, row: Row, before: Row, registry: Registry, script: Intent -> Turn, limit: nat, n: nat)
    requires Progress(row, before, limit, n)
    requires row.request.operation in registry && registry[row.request.operation] == Some(limit) && 1 <= limit
    requires before.status in UNFINISHED ==>
               script(ToIntent(id, before)).outcome != Cancelled && script(ToIntent(id, before)).fault == NoFault
    ensures Progress(row, PassRow(id, before, registry, script), limit, n + 1)
  {}

  lemma OnePassMakesProgress(before: Table, registry: Registry, script: Intent -> Turn, id: IntentId, row: Row, limit: nat, n: nat)
    requires before.Valid() && Clean(before, registry, script) && id in before.rows
    requires Progress(row, before.rows[id], limit, n)
    requires row.request.operation in registry && registry[row.request.operation] == Some(limit) && 1 <= limit
    ensures id in AfterPass(before, registry, script).rows
    ensures Progress(row, AfterPass(before, registry, script).rows[id], limit, n + 1)
  {
    PassIsPointwise(before, registry, script, id);
    if before.rows[id].status in UNFINISHED {
      UninterruptedRow(before, registry, script, id);
      CleanRow(before, registry, script, id);
    }
    PassMakesProgress(id, row, before.rows[id], registry, script, limit, n);
  }

  /** With `limit` attempts allowed, an intent with a handler is settled for good after at most
      `limit - attempts` clean passes (one, if crashes already used them up). */
  lemma {:induction false} SettledWithinLimit(t: Table, registry: Registry, scripts: seq<Intent -> Turn>, id: IntentId, limit: nat, n: nat)
    requires t.Valid() && n <= |scripts| && AllClean(t, registry, scripts, n)
    requires id in t.rows && t.rows[id].request.operation in registry
    requires registry[t.rows[id].request.operation] == Some(limit) && 1 <= limit
    ensures var after := AfterPasses(t, registry, scripts, n);
            && id in after.rows && Progress(t.rows[id], after.rows[id], limit, n)
            && (Remaining(t.rows[id], limit) <= n ==> after.rows[id].status == Completed || after.rows[id].status == Failed)
  {
    hide AfterPass, Clean, Table.Valid;
    if n > 0 {
      SettledWithinLimit(t, registry, scripts, id, limit, n - 1);
      OnePassMakesProgress(AfterPasses(t, registry, scripts, n - 1), registry, scripts[n - 1], id, t.rows[id], limit, n - 1);
    }
  }

  // A body that is cancelled at every boot.

  /** The body of this intent is cancelled whatever its row says by then. */
  ghost predicate AlwaysCancelled(script: Intent -> Turn, id: IntentId) {
    forall intent: Intent :: intent.id == id ==> script(intent).outcome == Cancelled && script(intent).fault != StartWriteFails
  }

  /** Unfinished, and its operation has a handler. */
  predicate IsDue(t: Table, registry: Registry, id: IntentId) {
    id in t.rows && t.rows[id].status in UNFINISHED && t.rows[id].request.operation in registry
  }

  lemma CancelledPass(t: Table, registry: Registry, script: Intent -> Turn, id: IntentId, later: IntentId)
    requires t.Valid() && IsDue(t, registry, id) && AlwaysCancelled(script, id)
    requires later in t.rows && t.rows[id].rowid < t.rows[later].rowid
    ensures !GetsTo(t, registry, script, later)
    ensures exists i :: 0 <= i < |Todo(t)| && Interrupts(registry, script, Todo(t)[i])
  {
    hide Table.Valid, Reach;
    SelectUnfinished(t);
    var todo, n := Todo(t), PassReach(t, registry, script);
    var p :| 0 <= p < |todo| && todo[p].id == id;
    ReachStops(registry, script, todo, 0);
    assert Interrupts(registry, script, todo[p]);
    assert n <= p + 1;
    forall i | 0 <= i < n ensures todo[i].id != later {
      assert i == p || t.rows[todo[i].id].rowid < t.rows[todo[p].id].rowid;
    }
  }

  lemma CancelledRow(t: Table, registry: Registry, script: Intent -> Turn, id: IntentId, later: IntentId)
    requires t.Valid() && IsDue(t, registry, id) && AlwaysCancelled(script, id)
    requires later in t.rows && t.rows[id].rowid < t.rows[later].rowid
    ensures var after := AfterPass(t, registry, script);
            && IsDue(after, registry, id) && after.rows[id].rowid == t.rows[id].rowid
            && later in after.rows && after.rows[later] == t.rows[later]
  {
    hide Table.Valid, GetsTo;
    CancelledPass(t, registry, script, id, later);
    PassIsPointwise(t, registry, script, id);
    PassIsPointwise(t, registry, script, later);
  }

  lemma CancelledPassFails(t: Table, registry: Registry, script: Intent -> Turn, id: IntentId, later: IntentId)
    requires t.Valid() && IsDue(t, registry, id) && AlwaysCancelled(script, id)
    requires later in t.rows && t.rows[id].rowid < t.rows[later].rowid
    ensures !GetsTo(t, registry, script, later) && !Uninterrupted(t, registry, script)
  {
    hide Table.Valid, GetsTo;
    CancelledPass(t, registry, script, id, later);
  }

  /** `first` is still due in front of `later`, which is as it was. */
  predicate StillBehind(t: Table, after: Table, registry: Registry, first: IntentId, later: IntentId) {
    && IsDue(after, registry, first)
    && later in t.rows && later in after.rows && after.rows[later] == t.rows[later]
    && after.rows[first].rowid < after.rows[later].rowid
  }

  lemma StaysBehind(t: Table, before: Table, registry: Registry, script: Intent -> Turn, first: IntentId, later: IntentId)
    requires before.Valid() && AlwaysCancelled(script, first) && StillBehind(t, before, registry, first, later)
    ensures StillBehind(t, AfterPass(before, registry, script), registry, first, later)
  {
    hide Table.Valid, AfterPass, IsDue, AlwaysCancelled;
    IsDueHasRow(before, registry, first);
    CancelledRow(before, registry, script, first, later);
    IsDueHasRow(AfterPass(before, registry, script), registry, first);
  }

  lemma IsDueHasRow(t: Table, registry: Registry, id: IntentId)
    requires IsDue(t, registry, id)
    ensures id in t.rows
  {}

  lemma {:induction false} BehindAfterPasses(
    t: Table, registry: Registry, scripts: seq<Intent -> Turn>, first: IntentId, later: IntentId, n: nat)
    requires t.Valid() && n <= |scripts| && StillBehind(t, t, registry, first, later)
    requires forall k :: 0 <= k < n ==> AlwaysCancelled(scripts[k], first)
    ensures StillBehind(t, AfterPasses(t, registry, scripts, n), registry, first, later)
  {
    hide Table.Valid, AfterPass, AlwaysCancelled, StillBehind;
    if n > 0 {
      BehindAfterPasses(t, registry, scripts, first, later, n - 1);
      StaysBehind(t, AfterPasses(t, registry, scripts, n - 1), registry, scripts[n - 1], first, later);
    }
  }

  /** If the body of a due intent is cancelled at every boot, no replay ever reaches an intent recorded after it,
      however often the process is started, and each of those replays is itself cancelled. */
  lemma CancelledBodyBlocksTheRest(
    t: Table, registry: Registry, scripts: seq<Intent -> Turn>, first: IntentId, later: IntentId, n: nat)
    requires t.Valid() && n < |scripts| && StillBehind(t, t, registry, first, later)
    requires forall k :: 0 <= k < |scripts| ==> AlwaysCancelled(scripts[k], first)
    ensures var before := AfterPasses(t, registry, scripts, n);
            && StillBehind(t, before, registry, first, later)
            && !GetsTo(before, registry, scripts[n], later)
            && !Uninterrupted(before, registry, scripts[n])
  {
    hide Table.Valid, AfterPasses, AlwaysCancelled, GetsTo, Uninterrupted;
    BehindAfterPasses(t, registry, scripts, first, later, n);
    CancelledPassFails(AfterPasses(t, registry, scripts, n), registry, scripts[n], first, later);
  }

  /** Such a table and such bodies: two intents, the second of which no boot ever reaches. */
  lemma BlockedForever(n: nat) returns (t: Table, registry: Registry, scripts: seq<Intent -> Turn>)
    ensures t.Valid() && |scripts| == n + 1 && Due(t, registry) == ["first", "second"]
    ensures !GetsTo(AfterPasses(t, registry, scripts, n), registry, scripts[n], "second")
    ensures StillBehind(t, AfterPasses(t, registry, scripts, n), registry, "first", "second")
  {
    hide AfterPasses, GetsTo, PassReach, Uninterrupted, Due;
    var request := Request("upload", "{}");
    t := EMPTY.Insert("first", request, 0).Insert("second", request, 0);
    registry := map["upload" := None];
    var cancelled: Intent -> Turn := intent => Turn(Cancelled, 0, 0, NoFault);
    scripts := seq(n + 1, i => cancelled);
    TwoDue(t, registry, request);
    CancelledBodyBlocksTheRest(t, registry, scripts, "first", "second", n);
  }

  lemma TwoDue(t: Table, registry: Registry, request: Request)
    requires t == EMPTY.Insert("first", request, 0).Insert("second", request, 0) && request.operation in registry
    ensures Due(t, registry) == ["first", "second"]
    ensures IsDue(t, registry, "first") && "second" in t.rows && t.rows["first"].rowid < t.rows["second"].rowid
  {
    var order: seq<IntentId> := ["first", "second"];
    assert t.order == order;
    assert order[1..] == ["second"] && order[1..][1..] == [];
    assert Restrict(t.order, t.WithStatus(UNFINISHED) * Registered(t, registry)) == order;
  }
}
