/**
  The values of the task subsystem: statuses, the in-memory envelope, the persisted
  record and the answer of a status query. A task id is a UUID of which only equality
  is used, so it is a number here; the same holds for the identity of a subscriber queue.
*/
module TaskModel {
  import opened Optional

  type TaskId = nat
  type StreamId = nat
  type Request = string

  /** What the orchestrator returns; `body` stands for every field but the trace id. */
  datatype Response = Response(traceId: string, body: string)

  /** How one call of the orchestrator ends. */
  datatype Outcome = Returned(response: Response) | Raised(message: string)

  datatype Status = Queued | Running | Completed | Failed

  predicate Terminal(st: Status) {
    st.Completed? || st.Failed?
  }

  function Rank(st: Status): nat {
    match st
    case Queued => 0
    case Running => 1
    case Completed => 2
    case Failed => 2
  }

  /** An entry of the manager's `_tasks` dictionary. */
  datatype Envelope = Envelope(request: Request, status: Status, result: Option<Response>, error: Option<string>)

  /** A row of the task table. `request` is None when the stored JSON is empty or does not parse. */
  datatype Record = Record(request: Option<Request>, status: Status,
                           traceId: Option<string>, result: Option<Response>, error: Option<string>)

  /** The answer of a status query. */
  datatype Snapshot = Snapshot(id: TaskId, status: Status,
                               traceId: Option<string>, result: Option<Response>, error: Option<string>)

  function TraceOf(result: Option<Response>): Option<string> {
    match result
    case None => None
    case Some(r) => Some(r.traceId)
  }

  /** The two branches of the repository: a dictionary, or a database table behind an ORM. */
  datatype Storage = InMemory | Database

  function Merge<T>(old': Option<T>, new': Option<T>): Option<T> {
    if new'.Some? then new' else old'
  }

  /** `update_status` on one record: the dictionary keeps a field when None is passed, the ORM overwrites it. */
  function UpdatedRecord(storage: Storage, r: Record, st: Status,
                         trace: Option<string>, result: Option<Response>, error: Option<string>): Record
  {
    match storage
    case InMemory => Record(r.request, st, Merge(r.traceId, trace), Merge(r.result, result), Merge(r.error, error))
    case Database => Record(r.request, st, trace, result, error)
  }

  /** `update_status` on the whole table; an unknown id is ignored. */
  function UpdatedTable(storage: Storage, repo: map<TaskId, Record>, id: TaskId, st: Status,
                        trace: Option<string>, result: Option<Response>, error: Option<string>): map<TaskId, Record>
  {
    if id in repo then repo[id := UpdatedRecord(storage, repo[id], st, trace, result, error)] else repo
  }

  /** The envelope says how the call of the orchestrator ended. */
  predicate EnvelopeHolds(e: Envelope, o: Outcome) {
    match o
    case Returned(r) => e.status.Completed? && e.result == Some(r)
    case Raised(m) => e.status.Failed? && e.error == Some(m)
  }

  /** And so does the row, with the trace id of the response. */
  predicate RowHolds(r: Record, o: Outcome) {
    match o
    case Returned(v) => r.status.Completed? && r.result == Some(v) && r.traceId == Some(v.traceId)
    case Raised(m) => r.status.Failed? && r.error == Some(m)
  }

  function EnvelopeSnapshot(id: TaskId, e: Envelope): Snapshot {
    Snapshot(id, e.status, TraceOf(e.result), e.result, e.error)
  }

  function RecordSnapshot(id: TaskId, r: Record): Snapshot {
    Snapshot(id, r.status, r.traceId, r.result, r.error)
  }

  /** `get_status`: memory first, then the table, then a synthetic failure. */
  function GetStatus(tasks: map<TaskId, Envelope>, repo: map<TaskId, Record>, id: TaskId): Snapshot {
    if id in tasks then EnvelopeSnapshot(id, tasks[id])
    else if id in repo then RecordSnapshot(id, repo[id])
    else Snapshot(id, Failed, None, None, Some("task_not_found"))
  }

  /** `list_recoverable_tasks`: the unfinished tasks, oldest first. */
  function Recoverable(created: seq<TaskId>, repo: map<TaskId, Record>): seq<TaskId> {
    if created == [] then []
    else
      var last := created[|created| - 1];
      Recoverable(created[..|created| - 1], repo)
      + if last in repo && !Terminal(repo[last].status) then [last] else []
  }
}
