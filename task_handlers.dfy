/**
 * The five request handlers of the task service over the table. Each one
 * provisions the table first (the create handler only after validating its
 * body); the outcome of that provisioning attempt is a parameter, as are
 * generated ids and clock readings.
 */
module TaskHandlers {
  import opened Optional
  import opened TaskModel
  import opened Provisioning
  import opened UpdateExpression
  import opened TaskTable

  /** Why a handler answered with a server error. */
  datatype Failure =
    | ProvisioningFailed(attempt: CreateAttempt)  // get_table raised
    | BodyNotAnObject                             // the update body was not a JSON object

  /** What a handler answers. */
  datatype Response =
    | CreatedTask(task: Task)     // the created record
    | FoundTask(task: Task)       // a fetched or updated record
    | Listing(tasks: seq<Task>)   // all records
    | DeletedTask(id: string)     // the confirmation of a delete
    | TitleRequired               // the create body lacks a title
    | TaskNotFound                // no record under the id
    | ServerError(failure: Failure)

  /** The HTTP status of a response. */
  function StatusCode(r: Response): (code: int)
    ensures code == 201 <==> r.CreatedTask?
    ensures code == 400 <==> r.TitleRequired?
    ensures code == 404 <==> r.TaskNotFound?
    ensures code == 500 <==> r.ServerError?
    ensures code == 200 <==> r.FoundTask? || r.Listing? || r.DeletedTask?
  {
    match r
    case CreatedTask(_) => 201
    case FoundTask(_) => 200
    case Listing(_) => 200
    case DeletedTask(_) => 200
    case TitleRequired => 400
    case TaskNotFound => 404
    case ServerError(_) => 500
  }

  /**
   * `create_task`: a missing, empty or title-less body is refused before the
   * table is touched; otherwise the new record (id generated, defaults filled
   * in, one clock reading per timestamp) is written and returned.
   */
  method CreateTask(table: Table, attempt: CreateAttempt, body: Option<Body>,
                    id: string, createdAt: string, updatedAt: string) returns (r: Response)
    requires table.Valid()
    modifies table
    ensures table.Valid()
    ensures !HasTitle(body) ==> r == TitleRequired && table.items == old(table.items)
    ensures HasTitle(body) && GetTable(attempt).Failed? ==>
              r == ServerError(ProvisioningFailed(attempt)) && table.items == old(table.items)
    ensures HasTitle(body) && GetTable(attempt).Ready? ==>
              && r == CreatedTask(NewTask(id, body.value, createdAt, updatedAt))
              && table.items == old(table.items)[id := r.task]
    ensures r.CreatedTask? && id !in old(table.items) ==> |table.items| == |old(table.items)| + 1
    ensures StatusCode(r) == 400 <==> !HasTitle(body)
    ensures StatusCode(r) == 201 <==> HasTitle(body) && GetTable(attempt).Ready?
    ensures StatusCode(r) == 500 <==> HasTitle(body) && GetTable(attempt).Failed?
  {
    if body.None? || body.value == map[] || "title" !in body.value {
      return TitleRequired;
    }
    var task := NewTask(id, body.value, createdAt, updatedAt);
    if GetTable(attempt).Failed? {
      return ServerError(ProvisioningFailed(attempt));
    }
    table.PutItem(task);
    r := CreatedTask(task);
  }

  /** `get_task`: the record stored under `id`, or not found; nothing changes. */
  function GetTask(table: Table, attempt: CreateAttempt, id: string): (r: Response)
    reads table
    requires table.Valid()
    ensures GetTable(attempt).Failed? ==> r == ServerError(ProvisioningFailed(attempt))
    ensures GetTable(attempt).Ready? ==> (r.FoundTask? <==> id in table.items)
    ensures GetTable(attempt).Ready? && id !in table.items ==> r == TaskNotFound
    ensures r.FoundTask? ==> r.task.id == id && r.task == table.items[id]
    ensures StatusCode(r) == 200 <==> GetTable(attempt).Ready? && id in table.items
    ensures StatusCode(r) == 404 <==> GetTable(attempt).Ready? && id !in table.items
    ensures StatusCode(r) == 500 <==> GetTable(attempt).Failed?
  {
    if GetTable(attempt).Failed? then ServerError(ProvisioningFailed(attempt))
    else match table.GetItem(id)
      case None => TaskNotFound
      case Some(t) => FoundTask(t)
  }

  /** `get_tasks`: every stored record exactly once; an empty table gives an empty list. */
  method ListTasks(table: Table, attempt: CreateAttempt) returns (r: Response)
    requires table.Valid()
    ensures GetTable(attempt).Failed? <==> r == ServerError(ProvisioningFailed(attempt))
    ensures GetTable(attempt).Ready? ==> r.Listing?
    ensures r.Listing? ==>
              && |r.tasks| == |table.items|
              && (forall i | 0 <= i < |r.tasks| :: r.tasks[i].id in table.items && table.items[r.tasks[i].id] == r.tasks[i])
              && (forall k | k in table.items :: table.items[k] in r.tasks)
              && (forall i, j | 0 <= i < j < |r.tasks| :: r.tasks[i].id != r.tasks[j].id)
    ensures r.Listing? && table.items == map[] ==> r.tasks == []
    ensures StatusCode(r) == (if GetTable(attempt).Ready? then 200 else 500)
  {
    if GetTable(attempt).Failed? {
      return ServerError(ProvisioningFailed(attempt));
    }
    var tasks := table.Scan();
    r := Listing(tasks);
  }

  /**
   * `update_task`: not found when no record is stored under `id`; otherwise
   * the body's present fields among title, description and status and a fresh
   * updated_at are written into the record, which is returned as it is after
   * the write. A body that is not a JSON object fails once the record is found.
   */
  method UpdateTask(table: Table, attempt: CreateAttempt, id: string, body: Option<Body>, now: string)
    returns (r: Response)
    requires table.Valid()
    modifies table
    ensures table.Valid()
    ensures GetTable(attempt).Failed? ==>
              r == ServerError(ProvisioningFailed(attempt)) && table.items == old(table.items)
    ensures GetTable(attempt).Ready? && id !in old(table.items) ==>
              r == TaskNotFound && table.items == old(table.items)
    ensures GetTable(attempt).Ready? && id in old(table.items) && body.None? ==>
              r == ServerError(BodyNotAnObject) && table.items == old(table.items)
    ensures GetTable(attempt).Ready? && id in old(table.items) && body.Some? ==>
              && r == FoundTask(Merge(old(table.items)[id], body.value, now))
              && table.items == old(table.items)[id := r.task]
    ensures StatusCode(r) == 404 <==> GetTable(attempt).Ready? && id !in old(table.items)
    ensures StatusCode(r) == 200 <==> GetTable(attempt).Ready? && id in old(table.items) && body.Some?
  {
    if GetTable(attempt).Failed? {
      return ServerError(ProvisioningFailed(attempt));
    }
    if table.GetItem(id).None? {
      return TaskNotFound;
    }
    if body.None? {
      return ServerError(BodyNotAnObject);
    }
    var expression, request := BuildUpdate(body.value, now);
    ApplyDescribe(body.value, now, table.items[id]);
    var updated := table.UpdateItem(id, request);
    match updated
    case None =>
      assert false;
    case Some(t) =>
      r := FoundTask(t);
  }

  /** `delete_task`: not found when no record is stored under `id`; otherwise exactly that record is removed. */
  method DeleteTask(table: Table, attempt: CreateAttempt, id: string) returns (r: Response)
    requires table.Valid()
    modifies table
    ensures table.Valid()
    ensures GetTable(attempt).Failed? ==>
              r == ServerError(ProvisioningFailed(attempt)) && table.items == old(table.items)
    ensures GetTable(attempt).Ready? && id !in old(table.items) ==>
              r == TaskNotFound && table.items == old(table.items)
    ensures GetTable(attempt).Ready? && id in old(table.items) ==>
              r == DeletedTask(id) && table.items == old(table.items) - {id}
    ensures StatusCode(r) == 404 <==> GetTable(attempt).Ready? && id !in old(table.items)
    ensures StatusCode(r) == 200 <==> GetTable(attempt).Ready? && id in old(table.items)
  {
    if GetTable(attempt).Failed? {
      return ServerError(ProvisioningFailed(attempt));
    }
    if table.GetItem(id).None? {
      return TaskNotFound;
    }
    table.DeleteItem(id);
    r := DeletedTask(id);
  }

  /** A created task can be fetched back unchanged under the id it was created with. */
  method CreateThenGet(table: Table, attempt: CreateAttempt, body: Body,
                       id: string, createdAt: string, updatedAt: string)
    returns (created: Response, fetched: Response)
    requires table.Valid()
    requires HasTitle(Some(body)) && GetTable(attempt).Ready?
    modifies table
    ensures created.CreatedTask? && created.task.id == id
    ensures fetched == FoundTask(created.task)
  {
    created := CreateTask(table, attempt, Some(body), id, createdAt, updatedAt);
    fetched := GetTask(table, attempt, id);
  }

  /** Deleting is not idempotent: after a delete, fetching and deleting again both answer not found. */
  method DeleteTwice(table: Table, attempt: CreateAttempt, id: string)
    returns (first: Response, fetched: Response, second: Response)
    requires table.Valid() && GetTable(attempt).Ready?
    modifies table
    ensures first == if id in old(table.items) then DeletedTask(id) else TaskNotFound
    ensures fetched == TaskNotFound && second == TaskNotFound
    ensures table.items == old(table.items) - {id}
  {
    first := DeleteTask(table, attempt, id);
    fetched := GetTask(table, attempt, id);
    second := DeleteTask(table, attempt, id);
  }
}
