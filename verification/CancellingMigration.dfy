/**
 The migration that retires the `cancelling` task status: queued tasks downstream of a cancelling task
 are cancelled, then the cancelling rows themselves settle, then the index that keeps active tasks unique
 is narrowed to queued and running.
 */
module CancellingMigration {
  import opened Wrappers
  import opened TaskGraph

  datatype Status = Queued | Running | Cancelling | Succeeded | Failed | Cancelled

  datatype DedupKey = DedupKey(
    project: string, user: string, taskType: string, resource: string,
    scriptFile: Option<string>, resourceType: Option<string>)

  datatype Row = Row(
    status: Status, dependency: Option<TaskId>, cancelledBy: Option<string>,
    finishedAt: Option<int>, updatedAt: int, key: DedupKey)

  /** The table, by primary key. */
  type Rows = map<TaskId, Row>

  // ---- the unique index --------------------------------------------------------------------

  function Coalesce<T>(value: Option<T>, default: T): T { if value.Some? then value.value else default }

  predicate SameIndexKey(a: DedupKey, b: DedupKey) {
    a.project == b.project && a.user == b.user && a.taskType == b.taskType && a.resource == b.resource
    && Coalesce(a.scriptFile, "") == Coalesce(b.scriptFile, "")
    && Coalesce(a.resourceType, "") == Coalesce(b.resourceType, "")
  }

  /** No two rows in an active status share an index key. */
  ghost predicate UniqueActive(rows: Rows, active: set<Status>) {
    forall a, b :: a in rows && b in rows && a != b && rows[a].status in active && rows[b].status in active ==>
      !SameIndexKey(rows[a].key, rows[b].key)
  }

  // ---- the upgrade as a function of the table ----------------------------------------------

  function Dependencies(rows: Rows): map<TaskId, TaskId> {
    map id | id in rows && rows[id].dependency.Some? :: rows[id].dependency.value
  }

  function WithStatus(rows: Rows, status: Status): set<TaskId> {
    set id | id in rows && rows[id].status == status
  }

  /** A chain of queued dependencies leads from the task to a cancelling one. */
  ghost predicate Doomed(rows: Rows, id: TaskId) {
    Reaches(Dependencies(rows), WithStatus(rows, Queued), WithStatus(rows, Cancelling), id)
  }

  function Cascaded(row: Row, now: int): Row {
    row.(status := Cancelled, cancelledBy := Some("cascade"), finishedAt := Some(now), updatedAt := now)
  }

  function Settled(row: Row, now: int): Row {
    row.(status := Cancelled,
         cancelledBy := Some(Coalesce(row.cancelledBy, "user")),
         finishedAt := Some(Coalesce(row.finishedAt, now)),
         updatedAt := now)
  }

  ghost function Upgraded(rows: Rows, now: int): Rows {
    map id | id in rows ::
      if rows[id].status == Queued && Doomed(rows, id) then Cascaded(rows[id], now)
      else if rows[id].status == Cancelling then Settled(rows[id], now)
      else rows[id]
  }

  /** The first `UPDATE`, on the rows the recursive query found. */
  function CascadeStatement(rows: Rows, doomed: set<TaskId>, now: int): Rows {
    map id | id in rows :: if rows[id].status == Queued && id in doomed then Cascaded(rows[id], now) else rows[id]
  }

  /** The second `UPDATE`. */
  function SettleStatement(rows: Rows, now: int): Rows {
    map id | id in rows :: if rows[id].status == Cancelling then Settled(rows[id], now) else rows[id]
  }

  lemma BothStatements(rows: Rows, doomed: set<TaskId>, now: int)
    requires forall id :: id in rows && rows[id].status == Queued ==> (id in doomed <==> Doomed(rows, id))
    ensures SettleStatement(CascadeStatement(rows, doomed, now), now) == Upgraded(rows, now)
  {}

  /** The tasks table with its partial unique index. */
  class TaskTable {
    var rows: Rows
    var indexed: set<Status>

    ghost predicate Valid()
      reads this
    {
      UniqueActive(rows, indexed)
    }

    constructor (rows: Rows)
      requires UniqueActive(rows, {Queued, Running, Cancelling})
      ensures Valid() && this.rows == rows && indexed == {Queued, Running, Cancelling}
    {
      this.rows := rows;
      indexed := {Queued, Running, Cancelling};
    }

    /** The three statements in their order; creating the narrower unique index cannot fail. */
    method Upgrade(now: int)
      requires Valid() && indexed == {Queued, Running, Cancelling}
      modifies this
      ensures Valid() && indexed == {Queued, Running} && rows == Upgraded(old(rows), now)
    {
      var doomed := Downstream(Dependencies(rows), WithStatus(rows, Queued), WithStatus(rows, Cancelling));
      BothStatements(rows, doomed, now);
      NarrowerIndexHolds(rows, now);
      rows := CascadeStatement(rows, doomed, now);
      rows := SettleStatement(rows, now);
      indexed := {};
      indexed := {Queued, Running};
    }
  }

  // ---- properties --------------------------------------------------------------------------

  lemma ActiveIsUntouched(rows: Rows, now: int, id: TaskId)
    requires id in Upgraded(rows, now) && Upgraded(rows, now)[id].status in {Queued, Running}
    ensures id in rows && Upgraded(rows, now)[id] == rows[id]
  {}

  /** Uniqueness of active keys carries over to the narrower index. */
  lemma NarrowerIndexHolds(rows: Rows, now: int)
    requires UniqueActive(rows, {Queued, Running, Cancelling})
    ensures UniqueActive(Upgraded(rows, now), {Queued, Running})
  {
    var after := Upgraded(rows, now);
    forall a, b | a in after && b in after && a != b && after[a].status in {Queued, Running}
                  && after[b].status in {Queued, Running}
      ensures !SameIndexKey(after[a].key, after[b].key)
    {
      ActiveIsUntouched(rows, now, a);
      ActiveIsUntouched(rows, now, b);
    }
  }

  /** The upgrade cancels a queued task exactly when a chain of queued dependencies leads to a cancelling one. */
  lemma CancelsExactlyTheDoomed(rows: Rows, now: int, id: TaskId)
    requires id in rows && rows[id].status == Queued
    ensures var after := Upgraded(rows, now)[id];
            (after.status == Cancelled <==>
              exists path :: ChainTo(Dependencies(rows), WithStatus(rows, Queued), WithStatus(rows, Cancelling), path)
                             && path[0] == id)
            && (after.status == Cancelled ==>
                  && after.cancelledBy == Some("cascade") && after.finishedAt == Some(now) && after.updatedAt == now
                  && after.key == rows[id].key && after.dependency == rows[id].dependency)
            && (after.status != Cancelled ==> after == rows[id])
  {}

  /** A cancelling row is cancelled; who cancelled it and when it ended stay if they were recorded. */
  lemma SettlesTheCancelling(rows: Rows, now: int, id: TaskId)
    requires id in rows && rows[id].status == Cancelling
    ensures var row, after := rows[id], Upgraded(rows, now)[id];
            && after.status == Cancelled && after.updatedAt == now
            && after.key == row.key && after.dependency == row.dependency
            && (row.cancelledBy.Some? ==> after.cancelledBy == row.cancelledBy)
            && (row.cancelledBy.None? ==> after.cancelledBy == Some("user"))
            && (row.finishedAt.Some? ==> after.finishedAt == row.finishedAt)
            && (row.finishedAt.None? ==> after.finishedAt == Some(now))
  {}

  lemma LeavesTheOthers(rows: Rows, now: int, id: TaskId)
    requires id in rows && rows[id].status != Queued && rows[id].status != Cancelling
    ensures Upgraded(rows, now)[id] == rows[id]
  {}

  /** No row is left cancelling, and no task that survives queued waits on one this upgrade cancelled. */
  lemma NothingIsStranded(rows: Rows, now: int)
    ensures var after := Upgraded(rows, now);
            && after.Keys == rows.Keys
            && (forall id :: id in after ==> after[id].status != Cancelling)
            && (forall id :: id in after && after[id].status == Queued && after[id].dependency.Some? ==>
                  var d := after[id].dependency.value;
                  d in after && after[d].status == Cancelled ==> rows[d].status == Cancelled)
  {
    var after := Upgraded(rows, now);
    forall id | id in after && after[id].status == Queued && after[id].dependency.Some?
                && after[id].dependency.value in after
                && after[after[id].dependency.value].status == Cancelled
      ensures rows[after[id].dependency.value].status == Cancelled
    {
      var d := after[id].dependency.value;
      assert after[id] == rows[id] && !Doomed(rows, id);
      assert Dependencies(rows)[id] == d;
      if rows[d].status == Cancelling {
        RootReaches(Dependencies(rows), WithStatus(rows, Queued), WithStatus(rows, Cancelling), d);
        StepReaches(Dependencies(rows), WithStatus(rows, Queued), WithStatus(rows, Cancelling), id);
        assert false;
      } else if rows[d].status == Queued {
        StepReaches(Dependencies(rows), WithStatus(rows, Queued), WithStatus(rows, Cancelling), id);
        assert false;
      }
    }
  }

  /** A task the cascade cancels depends on a task that ends cancelled too, so the chain is whole. */
  lemma CascadeFollowsItsCause(rows: Rows, now: int, id: TaskId)
    requires id in rows && rows[id].status == Queued && Doomed(rows, id)
    ensures rows[id].dependency.Some?
    ensures var d := rows[id].dependency.value;
            d in rows && rows[d].status in {Queued, Cancelling} && Upgraded(rows, now)[d].status == Cancelled
  {
    ReachesInverts(Dependencies(rows), WithStatus(rows, Queued), WithStatus(rows, Cancelling), id);
    var d := rows[id].dependency.value;
    if d !in WithStatus(rows, Cancelling) {
      ReachesInverts(Dependencies(rows), WithStatus(rows, Queued), WithStatus(rows, Cancelling), d);
    }
  }

  /** Running the statements in the other order would strand the downstream: nothing would be doomed. */
  lemma SettlingFirstDoomsNothing(rows: Rows, now: int, id: TaskId)
    ensures !Doomed(SettleStatement(rows, now), id)
  {
    assert WithStatus(SettleStatement(rows, now), Cancelling) == {};
  }
}
