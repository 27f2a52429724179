/** The intents table and the write-ahead journal built on it. */
module Intents {
  import opened Options
  import opened Sequences

  type IntentId = string

  datatype IntentStatus = Pending | InProgress | Completed | Failed

  /** What was asked for: fixed when the intent is recorded. The payload is the serialized text. */
  datatype Request = Request(operation: string, payload: string)

  datatype Row = Row(
    rowid: nat,
    request: Request,
    status: IntentStatus,
    attempts: nat,
    lastError: Option<string>,
    updatedAt: int)

  /** A row as handed to callers of the journal. */
  datatype Intent = Intent(
    id: IntentId,
    request: Request,
    status: IntentStatus,
    attempts: nat,
    lastError: Option<string>)

  function ToIntent(id: IntentId, row: Row): Intent {
    Intent(id, row.request, row.status, row.attempts, row.lastError)
  }

  /** UPDATE intents SET status, attempts, last_error, updated_at: request and rowid stay. */
  function Rewrite(row: Row, status: IntentStatus, attempts: nat, lastError: Option<string>, now: int): Row {
    row.(status := status, attempts := attempts, lastError := lastError, updatedAt := now)
  }

  const UNFINISHED: set<IntentStatus> := {Pending, InProgress}

  /** The primary-key index (`rows`) and the rowid order (`order`) of the table. */
  datatype Table = Table(order: seq<IntentId>, rows: map<IntentId, Row>) {

    ghost predicate Valid() {
      && Distinct(order)
      && (forall id :: id in order <==> id in rows)
      && (forall i, j :: 0 <= i < j < |order| ==> rows[order[i]].rowid < rows[order[j]].rowid)
    }

    /** A rowid table without AUTOINCREMENT allocates one more than the largest rowid in use. */
    function NextRowid(): nat
      requires forall id :: id in order ==> id in rows
    {
      if order == [] then 1 else rows[order[|order| - 1]].rowid + 1
    }

    function Insert(id: IntentId, request: Request, now: int): (t: Table)
      requires Valid() && id !in rows
      ensures t.Valid()
      ensures t.order == order + [id]
      ensures forall other :: other in rows ==> rows[other].rowid < t.rows[id].rowid
    {
      NextRowidIsLargest();
      var t := Table(order + [id], rows[id := Row(NextRowid(), request, Pending, 0, None, now)]);
      InsertValid(id, t);
      t
    }

    lemma NextRowidIsLargest()
      requires Valid()
      ensures forall other :: other in rows ==> rows[other].rowid < NextRowid()
    {
      forall other | other in rows ensures rows[other].rowid < NextRowid() {
        assert other in order;
        var i :| 0 <= i < |order| && order[i] == other;
      }
    }

    lemma InsertValid(id: IntentId, t: Table)
      requires Valid() && id !in rows
      requires t.order == order + [id] && t.rows.Keys == rows.Keys + {id}
      requires forall other :: other in rows ==> t.rows[other] == rows[other]
      requires forall other :: other in rows ==> rows[other].rowid < t.rows[id].rowid
      ensures t.Valid()
    {
      forall i, j | 0 <= i < j < |t.order|
        ensures t.order[i] != t.order[j] && t.order[i] in t.rows && t.order[j] in t.rows
        ensures t.rows[t.order[i]].rowid < t.rows[t.order[j]].rowid
      {
        assert order[i] in order;
        if j < |order| {
          assert order[j] in order;
        }
      }
    }

    function Update(id: IntentId, status: IntentStatus, attempts: nat, lastError: Option<string>, now: int): (t: Table)
      ensures Valid() ==> t.Valid()
    {
      if id !in rows then this
      else this.(rows := rows[id := Rewrite(rows[id], status, attempts, lastError, now)])
    }

    function WithStatus(statuses: set<IntentStatus>): set<IntentId> {
      set id | id in rows && rows[id].status in statuses
    }

    /** SELECT ... WHERE status IN statuses ORDER BY rowid. */
    function Select(statuses: set<IntentStatus>): seq<Intent>
      requires Valid()
    {
      var ids := Restrict(order, WithStatus(statuses));
      seq(|ids|, i requires 0 <= i < |ids| => assert ids[i] in ids; ToIntent(ids[i], rows[ids[i]]))
    }

    function Stale(cutoff: int): set<IntentId> {
      set id | id in rows && rows[id].status == Completed && rows[id].updatedAt < cutoff
    }

    function Prune(cutoff: int): (t: Table)
      ensures Valid() ==> t.Valid()
      ensures t.rows.Keys == rows.Keys - Stale(cutoff)
      ensures forall id :: id in t.rows ==> t.rows[id] == rows[id]
    {
      var t := Table(Restrict(order, rows.Keys - Stale(cutoff)), rows - Stale(cutoff));
      PruneValid(cutoff, t);
      t
    }

    lemma PruneValid(cutoff: int, t: Table)
      requires t == Table(Restrict(order, rows.Keys - Stale(cutoff)), rows - Stale(cutoff))
      ensures Valid() ==> t.Valid()
    {
      if Valid() {
        RestrictDistinct(order, rows.Keys - Stale(cutoff));
        forall i, j | 0 <= i < j < |t.order|
          ensures t.rows[t.order[i]].rowid < t.rows[t.order[j]].rowid
        {
          var a, b := RestrictKeepsOrder(order, rows.Keys - Stale(cutoff), i, j);
          assert t.order[i] in t.order && t.order[j] in t.order;
        }
      }
    }
  }

  const EMPTY := Table([], map[])

  // The row written by each mark_* method, as a function of the row it read.

  function Begun(row: Row, now: int): Row {
    Rewrite(row, InProgress, row.attempts + 1, row.lastError, now)
  }

  function Done(row: Row, now: int): Row {
    Rewrite(row, Completed, row.attempts, None, now)
  }

  function Retriable(row: Row, error: string, now: int): Row {
    Rewrite(row, Pending, row.attempts, Some(error), now)
  }

  function GivenUp(row: Row, error: string, now: int): Row {
    Rewrite(row, Failed, row.attempts, Some(error), now)
  }

  /** Replacing the row of one intent and nothing else. */
  function Put(t: Table, id: IntentId, row: Row): Table {
    t.(rows := t.rows[id := row])
  }

  lemma PutValid(t: Table, id: IntentId, row: Row)
    requires t.Valid() && id in t.rows && row.rowid == t.rows[id].rowid
    ensures Put(t, id, row).Valid()
  {}

  lemma PutReads(t: Table, id: IntentId)
    ensures forall row :: id in Put(t, id, row).rows && Put(t, id, row).rows[id] == row
    ensures forall row, row' :: Put(Put(t, id, row), id, row') == Put(t, id, row')
    ensures id in t.rows ==> Put(t, id, t.rows[id]) == t
  {
    assert id in t.rows ==> t.rows[id := t.rows[id]] == t.rows;
    forall row, row' ensures Put(Put(t, id, row), id, row') == Put(t, id, row') {
      assert t.rows[id := row][id := row'] == t.rows[id := row'];
    }
  }

  /** The ids of the replay set, oldest first. */
  function PendingIds(t: Table): seq<IntentId> {
    Restrict(t.order, t.WithStatus(UNFINISHED))
  }

  /** `r` lists exactly the intents of `t` with one of the statuses, each once and in rowid order. */
  ghost predicate Lists(r: seq<Intent>, t: Table, statuses: set<IntentStatus>) {
    && (forall i :: 0 <= i < |r| ==>
          r[i].id in t.rows && r[i] == ToIntent(r[i].id, t.rows[r[i].id]) && r[i].status in statuses)
    && (forall id :: id in t.rows && t.rows[id].status in statuses ==> exists i :: 0 <= i < |r| && r[i].id == id)
    && (forall i, j :: 0 <= i < j < |r| ==> r[i].id != r[j].id && t.rows[r[i].id].rowid < t.rows[r[j].id].rowid)
  }

  lemma SelectLists(t: Table, statuses: set<IntentStatus>)
    requires t.Valid()
    ensures Lists(t.Select(statuses), t, statuses)
  {
    var s, ids := t.Select(statuses), Restrict(t.order, t.WithStatus(statuses));
    forall i | 0 <= i < |s| ensures s[i].id == ids[i] && ids[i] in t.rows && t.rows[ids[i]].status in statuses {
      assert ids[i] in ids;
    }
    forall id | id in t.rows && t.rows[id].status in statuses
      ensures exists i :: 0 <= i < |s| && s[i].id == id
    {
      assert id in ids;
      var i :| 0 <= i < |ids| && ids[i] == id;
      assert s[i].id == id;
    }
    forall i, j | 0 <= i < j < |s|
      ensures s[i].id != s[j].id && t.rows[s[i].id].rowid < t.rows[s[j].id].rowid
    {
      var a, b := RestrictKeepsOrder(t.order, t.WithStatus(statuses), i, j);
    }
  }

  /** `pending()` lists exactly the unfinished intents, each once, in rowid order. */
  lemma SelectUnfinished(t: Table)
    requires t.Valid()
    ensures var s := t.Select(UNFINISHED);
            && |s| == |PendingIds(t)|
            && (forall i :: 0 <= i < |s| ==> s[i].id == PendingIds(t)[i])
            && (forall i :: 0 <= i < |s| ==> s[i].id in t.rows && s[i] == ToIntent(s[i].id, t.rows[s[i].id]))
            && (forall id :: id in t.rows && t.rows[id].status in UNFINISHED ==> exists i :: 0 <= i < |s| && s[i].id == id)
            && (forall i :: 0 <= i < |s| ==> t.rows[s[i].id].status in UNFINISHED)
            && (forall i, j :: 0 <= i < j < |s| ==> s[i].id != s[j].id && t.rows[s[i].id].rowid < t.rows[s[j].id].rowid)
  {
    SelectLists(t, UNFINISHED);
  }

  /** What a prune leaves: every row but the completed ones last updated before the cutoff, untouched and in
      the same order; in particular the replay set is what it was. */
  ghost predicate OnlyStaleGone(t: Table, after: Table, cutoff: int) {
    && (forall id :: id in after.rows <==> id in t.rows && !(t.rows[id].status == Completed && t.rows[id].updatedAt < cutoff))
    && (forall id :: id in after.rows ==> after.rows[id] == t.rows[id])
    && after.order == Restrict(t.order, after.rows.Keys)
    && PendingIds(after) == PendingIds(t)
  }

  lemma PruneCounts(t: Table, cutoff: int)
    ensures |t.Prune(cutoff).rows| + |t.Stale(cutoff)| == |t.rows|
  {
    hide Table.Valid;
    var after := t.Prune(cutoff);
    assert t.rows.Keys == after.rows.Keys + t.Stale(cutoff);
    assert |t.rows.Keys| == |t.rows| && |after.rows.Keys| == |after.rows|;
  }

  lemma PruneKeepsReplaySet(t: Table, cutoff: int)
    ensures t.Prune(cutoff).order == Restrict(t.order, t.Prune(cutoff).rows.Keys)
    ensures t.Valid() ==> PendingIds(t.Prune(cutoff)) == PendingIds(t)
  {
    hide Table.Valid, Table.WithStatus;
    var keep, after := t.rows.Keys - t.Stale(cutoff), t.Prune(cutoff);
    assert after.rows.Keys == keep;
    RestrictTwice(t.order, keep, after.WithStatus(UNFINISHED));
    if t.Valid() {
      UnfinishedKept(t, after, cutoff);
      RestrictSame(t.order, keep * after.WithStatus(UNFINISHED), t.WithStatus(UNFINISHED));
    }
  }

  lemma UnfinishedKept(t: Table, after: Table, cutoff: int)
    requires after.rows == t.rows - t.Stale(cutoff)
    ensures (t.rows.Keys - t.Stale(cutoff)) * after.WithStatus(UNFINISHED) == t.WithStatus(UNFINISHED)
  {}

  lemma PruneSparesTheRest(t: Table, cutoff: int)
    requires t.Valid()
    ensures OnlyStaleGone(t, t.Prune(cutoff), cutoff)
  {
    hide Table.Valid, PendingIds;
    PruneKeepsReplaySet(t, cutoff);
  }

  datatype JournalError = UnknownIntent(id: IntentId) | DuplicateId(id: IntentId)

  /** The database handle, of which the journal uses the intents table. Each method is one statement. */
  class Database {
    var intents: Table

    ghost predicate Valid() reads this { intents.Valid() }

    constructor ()
      ensures Valid() && intents == EMPTY
    {
      intents := EMPTY;
    }

    /** The primary key makes a second insert of the same id fail and leave the table alone. */
    method InsertIntent(id: IntentId, request: Request, now: int) returns (ok: bool)
      requires Valid()
      modifies this
      ensures Valid()
      ensures ok <==> id !in old(intents.rows)
      ensures ok ==> intents == old(intents).Insert(id, request, now)
      ensures !ok ==> intents == old(intents)
    {
      ok := id !in intents.rows;
      if ok {
        intents := intents.Insert(id, request, now);
      }
    }

    method UpdateIntent(id: IntentId, status: IntentStatus, attempts: nat, lastError: Option<string>, now: int)
      requires Valid()
      modifies this
      ensures Valid()
      ensures intents == old(intents).Update(id, status, attempts, lastError, now)
      ensures id !in old(intents.rows) ==> intents == old(intents)
      ensures id in old(intents.rows) ==>
                && intents.order == old(intents.order) && intents.rows.Keys == old(intents.rows.Keys)
                && (forall other :: other in intents.rows && other != id ==> intents.rows[other] == old(intents.rows[other]))
                && var was, row := old(intents.rows[id]), intents.rows[id];
                   && row.request == was.request && row.rowid == was.rowid
                   && row.status == status && row.attempts == attempts && row.lastError == lastError && row.updatedAt == now
    {
      intents := intents.Update(id, status, attempts, lastError, now);
    }

    method LoadIntent(id: IntentId) returns (r: Option<Intent>)
      ensures r.Some? <==> id in intents.rows
      ensures r.Some? ==> r.value == ToIntent(id, intents.rows[id])
    {
      r := if id in intents.rows then Some(ToIntent(id, intents.rows[id])) else None;
    }

    method LoadIntentsByStatus(statuses: set<IntentStatus>) returns (r: seq<Intent>)
      requires Valid()
      ensures r == intents.Select(statuses) && Lists(r, intents, statuses)
    {
      SelectLists(intents, statuses);
      r := intents.Select(statuses);
    }

    method PruneCompletedIntents(olderThan: int) returns (deleted: nat)
      requires Valid()
      modifies this
      ensures Valid()
      ensures intents == old(intents).Prune(olderThan)
      ensures OnlyStaleGone(old(intents), intents, olderThan)
      ensures deleted == |old(intents.rows)| - |intents.rows|
    {
      PruneSparesTheRest(intents, olderThan);
      PruneCounts(intents, olderThan);
      deleted := |intents.Stale(olderThan)|;
      intents := intents.Prune(olderThan);
    }
  }

  class IntentJournal {
    const store: Database

    constructor (store: Database)
      ensures this.store == store
    {
      this.store := store;
    }

    /** The row exists, pending and unattempted, before the caller learns its id. */
    method Record(id: IntentId, request: Request, now: int) returns (r: Result<Intent, JournalError>)
      requires store.Valid()
      modifies store
      ensures store.Valid()
      ensures r.Ok? <==> id !in old(store.intents.rows)
      ensures r.Ok? ==> store.intents == old(store.intents).Insert(id, request, now)
      ensures r.Ok? ==> r.value == Intent(id, request, Pending, 0, None)
      ensures r.Err? ==> store.intents == old(store.intents)
    {
      var ok := store.InsertIntent(id, request, now);
      if !ok {
        return Err(DuplicateId(id));
      }
      var intent := store.LoadIntent(id);
      return Ok(intent.value);
    }

    method Get(id: IntentId) returns (r: Option<Intent>)
      ensures r.Some? <==> id in store.intents.rows
      ensures r.Some? ==> r.value == ToIntent(id, store.intents.rows[id])
    {
      r := store.LoadIntent(id);
    }

    method Require(id: IntentId) returns (r: Result<Intent, JournalError>)
      ensures r.Ok? <==> id in store.intents.rows
      ensures r.Ok? ==> r.value == ToIntent(id, store.intents.rows[id])
    {
      var intent := Get(id);
      r := if intent.Some? then Ok(intent.value) else Err(UnknownIntent(id));
    }

    method MarkInProgress(id: IntentId, now: int) returns (r: Result<Intent, JournalError>)
      requires store.Valid()
      modifies store
      ensures store.Valid()
      ensures r.Ok? <==> id in old(store.intents.rows)
      ensures r.Ok? ==> store.intents == Put(old(store.intents), id, Begun(old(store.intents).rows[id], now))
      ensures r.Ok? ==> r.value == ToIntent(id, store.intents.rows[id])
      ensures r.Ok? ==>
                && id in store.intents.rows
                && var was, row := old(store.intents).rows[id], store.intents.rows[id];
                   && row.status == InProgress && row.attempts == was.attempts + 1
                   && row.lastError == was.lastError
                   && row.request == was.request && row.rowid == was.rowid && row.updatedAt == now
      ensures r.Err? ==> store.intents == old(store.intents)
    {
      var current := Require(id);
      if current.Err? {
        return Err(current.error);
      }
      var attempts := current.value.attempts + 1;
      store.UpdateIntent(id, InProgress, attempts, current.value.lastError, now);
      return Ok(current.value.(status := InProgress, attempts := attempts));
    }

    method MarkCompleted(id: IntentId, now: int) returns (known: bool)
      requires store.Valid()
      modifies store
      ensures store.Valid()
      ensures known <==> id in old(store.intents.rows)
      ensures known ==> store.intents == Put(old(store.intents), id, Done(old(store.intents).rows[id], now))
      ensures known ==>
                && id in store.intents.rows
                && var was, row := old(store.intents).rows[id], store.intents.rows[id];
                   && row.status == Completed && row.attempts == was.attempts
                   && row.lastError == None
                   && row.request == was.request && row.rowid == was.rowid && row.updatedAt == now
      ensures !known ==> store.intents == old(store.intents)
    {
      var current := Require(id);
      if current.Err? {
        return false;
      }
      store.UpdateIntent(id, Completed, current.value.attempts, None, now);
      return true;
    }

    method MarkPendingForRetry(id: IntentId, error: string, now: int) returns (known: bool)
      requires store.Valid()
      modifies store
      ensures store.Valid()
      ensures known <==> id in old(store.intents.rows)
      ensures known ==> store.intents == Put(old(store.intents), id, Retriable(old(store.intents).rows[id], error, now))
      ensures known ==>
                && id in store.intents.rows
                && var was, row := old(store.intents).rows[id], store.intents.rows[id];
                   && row.status == Pending && row.attempts == was.attempts
                   && row.lastError == Some(error)
                   && row.request == was.request && row.rowid == was.rowid && row.updatedAt == now
      ensures !known ==> store.intents == old(store.intents)
    {
      var current := Require(id);
      if current.Err? {
        return false;
      }
      store.UpdateIntent(id, Pending, current.value.attempts, Some(error), now);
      return true;
    }

    method MarkFailed(id: IntentId, error: string, now: int) returns (known: bool)
      requires store.Valid()
      modifies store
      ensures store.Valid()
      ensures known <==> id in old(store.intents.rows)
      ensures known ==> store.intents == Put(old(store.intents), id, GivenUp(old(store.intents).rows[id], error, now))
      ensures known ==>
                && id in store.intents.rows
                && var was, row := old(store.intents).rows[id], store.intents.rows[id];
                   && row.status == Failed && row.attempts == was.attempts
                   && row.lastError == Some(error)
                   && row.request == was.request && row.rowid == was.rowid && row.updatedAt == now
      ensures !known ==> store.intents == old(store.intents)
    {
      var current := Require(id);
      if current.Err? {
        return false;
      }
      store.UpdateIntent(id, Failed, current.value.attempts, Some(error), now);
      return true;
    }

    /** The replay set: every intent not yet completed or given up on, oldest first. */
    method PendingIntents() returns (r: seq<Intent>)
      requires store.Valid()
      ensures r == store.intents.Select(UNFINISHED) && Lists(r, store.intents, UNFINISHED)
    {
      r := store.LoadIntentsByStatus({Pending, InProgress});
    }

    /** Deletes what was completed more than `olderThan` ago, and nothing a replay could still need. */
    method PruneCompleted(now: int, olderThan: int) returns (deleted: nat)
      requires store.Valid()
      modifies store
      ensures store.Valid()
      ensures store.intents == old(store.intents).Prune(now - olderThan)
      ensures OnlyStaleGone(old(store.intents), store.intents, now - olderThan)
      ensures deleted == |old(store.intents.rows)| - |store.intents.rows|
    {
      hide *;
      var cutoff := now - olderThan;
      deleted := store.PruneCompletedIntents(cutoff);
    }
  }
}
