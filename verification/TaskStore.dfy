/** The task table and the queue backend as the objects the manager updates in place. */
module TaskStore {
  import opened Optional
  import opened TaskModel

  /** One record: a dictionary entry or an ORM row, updated field by field. */
  class TaskRow {
    const taskId: TaskId
    const request: Option<Request>
    var status: Status
    var traceId: Option<string>
    var result: Option<Response>
    var error: Option<string>

    constructor (taskId: TaskId, request: Option<Request>)
      ensures this.taskId == taskId && View() == Record(request, Queued, None, None, None)
    {
      this.taskId, this.request := taskId, request;
      status, traceId, result, error := Queued, None, None, None;
    }

    function View(): Record
      reads this
    {
      Record(request, status, traceId, result, error)
    }

    /** The dictionary branch keeps a field when None is passed; the ORM branch overwrites it. */
    method Update(storage: Storage, status: Status, traceId: Option<string>, result: Option<Response>,
                  error: Option<string>)
      modifies this
      ensures View() == UpdatedRecord(storage, old(View()), status, traceId, result, error)
    {
      this.status := status;
      if storage.InMemory? {
        if traceId.Some? { this.traceId := traceId; }
        if result.Some? { this.result := result; }
        if error.Some? { this.error := error; }
      } else {
        this.traceId, this.result, this.error := traceId, result, error;
      }
    }
  }

  class TaskRepository {
    const storage: Storage
    var rows: map<TaskId, TaskRow>
    var created: seq<TaskId>

    ghost var table: map<TaskId, Record>  // the contents of the rows

    /** Every row sits under its own id, and `table` is what the rows hold. */
    ghost predicate Valid()
      reads this`rows, this`table, rows.Values
    {
      && table.Keys == rows.Keys
      && (forall id | id in rows :: var r := rows[id];
            r.taskId == id && table[id] == Record(r.request, r.status, r.traceId, r.result, r.error))
    }

    constructor (storage: Storage)
      ensures Valid() && this.storage == storage && table == map[] && created == []
    {
      this.storage := storage;
      rows, created, table := map[], [], map[];
    }

    /** Ids are fresh UUIDs, so the row is new. */
    method Create(id: TaskId, request: Request)
      requires Valid() && id !in rows
      modifies this
      ensures Valid() && fresh(rows.Values - old(rows.Values))
      ensures table == old(table)[id := Record(Some(request), Queued, None, None, None)]
      ensures created == old(created) + [id]
    {
      var row := new TaskRow(id, Some(request));
      rows := rows[id := row];
      created := created + [id];
      table := table[id := row.View()];
    }

    method UpdateStatus(id: TaskId, status: Status, traceId: Option<string>, result: Option<Response>,
                        error: Option<string>)
      requires Valid()
      modifies this`table, rows.Values
      ensures Valid() && table == UpdatedTable(storage, old(table), id, status, traceId, result, error)
    {
      if id in rows {
        var row := rows[id];
        row.Update(storage, status, traceId, result, error);
        table := table[id := row.View()];
      }
    }

    method Get(id: TaskId) returns (found: Option<Record>)
      requires Valid()
      ensures found == if id in table then Some(table[id]) else None
    {
      if id in rows {
        found := Some(rows[id].View());
      } else {
        found := None;
      }
    }

    /** The ids of the unfinished tasks, oldest first. */
    method ListRecoverable() returns (ids: seq<TaskId>)
      requires Valid()
      ensures ids == Recoverable(created, table)
    {
      ids := [];
      for i := 0 to |created|
        invariant ids == Recoverable(created[..i], table)
      {
        assert created[..i + 1][..i] == created[..i];
        if created[i] in rows && !Terminal(rows[created[i]].status) {
          ids := ids + [created[i]];
        }
      }
      assert created[..|created|] == created;
    }
  }

  /** How an enqueue call ends: normally, or raising before or after the item was stored. */
  datatype Fault = NoFault | RaisesBefore | RaisesAfter

  /** Both backends are a FIFO; they differ in whether the items outlive the process. */
  class QueueBackend {
    var items: seq<TaskId>

    constructor (survivors: seq<TaskId>)
      ensures items == survivors
    {
      items := survivors;
    }

    method Enqueue(item: TaskId, fault: Fault) returns (ok: bool)
      modifies this
      ensures ok == fault.NoFault?
      ensures items == if fault.RaisesBefore? then old(items) else old(items) + [item]
    {
      ok := fault.NoFault?;
      if !fault.RaisesBefore? {
        items := items + [item];
      }
    }

    /** None is a timeout. */
    method Dequeue() returns (item: Option<TaskId>)
      modifies this
      ensures old(items) == [] ==> item == None && items == []
      ensures old(items) != [] ==> item == Some(old(items)[0]) && items == old(items)[1..]
    {
      if items == [] {
        item := None;
      } else {
        item := Some(items[0]);
        items := items[1..];
      }
    }
  }
}
