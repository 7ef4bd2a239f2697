# Task API data-access layer, modelled in Dafny

This project models the core of a small task-management service (`task-api-k8s/app/main.py`).
The service stores task records in a key-value table named `tasks`. It has five task handlers:
create, get, list, update (a partial merge) and delete. Every task request provisions the table
(create only after its body passes validation): it tries to create the table and treats
"already exists" as success. The health endpoint provisions the table too but runs no task
handler; the root endpoint never provisions.

The model has these parts:

- `optional.dfy`: module `Optional`, the `Option` datatype.
- `task_model.dfy`: module `TaskModel`. It holds the `Task` record, the request body as a map
  from attribute name to value, the record built at creation (`NewTask`, which fills in the
  `""` and `"pending"` defaults) and the record an update intends (`Merge`).
- `provisioning.dfy`: module `Provisioning`. It models how `get_table` classifies one
  create-table attempt (`Created`, a client error with its code, or any other failure). It also
  models the health endpoint, plus an abstract backend's set of tables so that repeated
  provisioning can be stated.
- `update_expression.dfy`: module `UpdateExpression`. This is the partial-update request.
  - `BuildUpdate` builds it as the handler does: string concatenation plus step-by-step
    updates of the value and alias maps.
  - `Describe` states the same request independently, as a fold over a table of the updatable
    fields.
  - `ApplyUpdate` gives such a request a meaning in the model: resolve `#` aliases, look up
    placeholders and set attributes. It rejects a request that leaves a value or alias unused,
    passes an empty alias table, uses the reserved word `status` without an alias, or assigns
    one attribute twice (directly or through an alias).
  - The lemmas show that the built request has the expected shape, that the backend accepts
    it, and that applying it gives exactly `Merge`.
- `task_table.dfy`: module `TaskTable`. The class `Table` holds the table as a
  `map<string, Task>` and offers the backend primitives `PutItem`, `GetItem`, `Scan`,
  `UpdateItem` and `DeleteItem`. Its invariant is that every record is stored under its own id.
- `task_handlers.dfy`: module `TaskHandlers`. It has the five handlers and the `Response`
  outcomes with their HTTP status codes (201, 200, 400, 404, 500). It also has two client
  methods that chain handlers: create then get, and delete twice.

Some inputs become parameters: the outcome of each request's create-table call, the generated
id (`uuid.uuid4()`) and each clock reading (`datetime.now()`).

Four behaviours of the code that the model keeps as they are:

- **Create validation.** Create rejects only a missing or empty body, or one without a `title`
  key. An empty title is accepted.
- **Create timestamps.** `created_at` and `updated_at` come from two separate clock readings,
  so they are not claimed equal.
- **Update timestamp.** Update stores the given time as `updated_at`. Nothing says that it
  increases.
- **Provisioning.** Provisioning runs again on every request; it is not cached.

## Model

| member | source | states |
|---|---|---|
| `Provisioning.GetTable` | task-api-k8s/app/main.py:41-66 | Provisioning yields the `tasks` handle exactly when the create call succeeded or failed with `ResourceInUseException`. Any other client error or exception is propagated unchanged. |
| `Provisioning.Health` | task-api-k8s/app/main.py:80-96 | The health endpoint answers 200 exactly when provisioning succeeds, and 503 otherwise. |
| `Provisioning.ProvisionExisting` | task-api-k8s/app/main.py:43-63 | Against a backend that already holds the table, a fault-free provisioning call succeeds and leaves the backend unchanged. |
| `Provisioning.ProvisionTwice` | task-api-k8s/app/main.py:43-63 | Two fault-free provisioning calls in a row both succeed with the same handle, whether or not the table existed before. |
| `TaskModel.MergeFrame` | task-api-k8s/app/main.py:166-194 | An update changes only `updated_at` (to the clock reading) and the present fields among title, description and status. The id, `created_at` and absent fields keep their values. Other keys of the body make no difference. |
| `TaskModel.MergeEmpty` | task-api-k8s/app/main.py:166-182 | An update whose body has none of title, description and status (an empty body, or one with only other keys) only refreshes `updated_at`. |
| `TaskModel.NewTaskIsMergeIntoDefaults` | task-api-k8s/app/main.py:120-128 | The created record equals the body merged into a blank record with description `""` and status `"pending"`. So a default is used exactly when the body omits that field. |
| `TaskModel.NewTask` | task-api-k8s/app/main.py:120-128 | The created record carries the generated id, the body's title and the two clock readings. Its description and status are the body's values when given, and otherwise `""` and `"pending"`. |
| `UpdateExpression.BuildUpdate` | task-api-k8s/app/main.py:166-182 | The handler's step-by-step builder produces exactly the request `Describe` specifies. Its concatenated expression string is the rendering of that request's assignments. |
| `UpdateExpression.DescribeShape` | task-api-k8s/app/main.py:166-182 | The expression begins with `updated_at = :updated_at` and adds one assignment per present field, in the fixed order title, description, status (as `#status`). The values cover exactly `:updated_at` plus `:title`/`:desc`/`:status` for the present fields, each holding the body's value. The alias table is `{#status: status}` exactly when status is present; otherwise it is none. |
| `UpdateExpression.RenderStartsWithTimestamp` | task-api-k8s/app/main.py:167 | Every update expression the handler sends starts with `SET updated_at = :updated_at`. |
| `UpdateExpression.DescribeWellFormed` | task-api-k8s/app/main.py:166-189 | The backend accepts every built request. Each value and alias is used, `status` is written only through its alias, no attribute is assigned twice, and an alias table is never empty, which is why an empty one is passed as none. |
| `UpdateExpression.ApplyDescribe` | task-api-k8s/app/main.py:166-191 | Applying the built request to a stored record gives exactly the intended merge. |
| `UpdateExpression.ApplyUpdateKeepsId` | task-api-k8s/app/main.py:185-191 | No accepted update request changes the record's key. |
| `TaskTable.Table.GetItem` | task-api-k8s/app/main.py:144-146 | A point read finds a record exactly when one is stored under the key, and that record carries the key as its id. |
| `TaskTable.Table.PutItem` | task-api-k8s/app/main.py:131 | A point write stores the record under its id, replacing any record stored there, and changes nothing else. |
| `TaskTable.Table.Scan` | task-api-k8s/app/main.py:103-104 | The scan returns as many records as are stored. Every stored record appears, only stored records appear, and no id appears twice. |
| `TaskTable.Table.UpdateItem` | task-api-k8s/app/main.py:185-191 | A partial update on a stored record stores and returns the applied record, or leaves the table as it was if the request is rejected. The invariant that records sit under their own id is kept. |
| `TaskTable.Table.DeleteItem` | task-api-k8s/app/main.py:211 | A point delete removes exactly that key; an absent key changes nothing. |
| `TaskHandlers.StatusCode` | task-api-k8s/app/main.py:106-217 | Each outcome maps to the status the handlers return: 201 for a created task, 200 for a fetched, updated, listed or deleted task, 400 for a missing title, 404 for a missing task, and 500 for a server error. The handler contracts state their status codes through it. |
| `TaskHandlers.CreateTask` | task-api-k8s/app/main.py:111-137 | A missing or empty body, or one without a `title` key, gives 400 and leaves the table unchanged, even if provisioning would fail. If provisioning fails the result is 500 and the table is unchanged. Otherwise the new record (generated id, defaults, two clock readings) is stored under its id, nothing else changes, the stored record is returned (201), and a fresh id adds exactly one entry. |
| `TaskHandlers.GetTask` | task-api-k8s/app/main.py:139-152 | Get never changes the table. It returns the record stored under the id (200), not found (404) when there is none, or 500 when provisioning fails. |
| `TaskHandlers.ListTasks` | task-api-k8s/app/main.py:98-109 | List never changes the table. It returns every stored record exactly once (so an empty table gives an empty list), or 500 when provisioning fails. |
| `TaskHandlers.UpdateTask` | task-api-k8s/app/main.py:154-197 | An absent id gives 404 and leaves the table unchanged. On a present id the stored record becomes the merge of the body's present fields and the clock reading, which is returned (200), and nothing else changes. A JSON `null` body on a present id gives 500 and leaves the table unchanged. |
| `TaskHandlers.DeleteTask` | task-api-k8s/app/main.py:199-217 | An absent id gives 404 and leaves the table unchanged. A present id is removed, exactly that key, and the confirmation carries the id (200). |
| `TaskHandlers.CreateThenGet` | task-api-k8s/app/main.py:111-152 | A task fetched right after its creation equals the created record. |
| `TaskHandlers.DeleteTwice` | task-api-k8s/app/main.py:139-217 | After a delete, both a get and a second delete of the same id answer not found. |

## Left out

- HTTP routing, JSON parsing and serialisation are not modelled; the handlers take the decoded
  body and return a `Response`. Two consequences:
  - A request body that is not JSON makes `request.get_json()` fail, and the handler then
    answers 500. The model does not represent this.
  - JSON bodies that are not objects (a list, a number, a string) are not modelled. A body is
    either a map or `null`.
- Body values are modelled as strings. The source stores any JSON value as it comes: for
  example, a `null` title passes the create check, because only the key's presence is tested.
- Metrics and logging are not modelled; they have no effect on results.
- Client construction and the environment-variable defaults are configuration, so they are
  not modelled.
- The root descriptor (`GET /`) is a constant JSON document and is not modelled.
- `wait_until_exists` and the backend's scan pagination are not modelled. `get_table` is given
  the outcome of the create call directly. `Scan` returns all records in one answer.
- The model does not say whether the client library accepts `None` as the `ExpressionAttributeNames`
  argument. The model treats `None` as "no alias table", as the handler intends. If the library's
  parameter validation rejects `None`, every update without `status` would answer 500 in the
  deployed service.
- Backend failures of `put_item`, `get_item`, `scan`, `update_item` and `delete_item`
  (timeouts, permissions) are not modelled; the only backend failure modelled is a failed
  provisioning call. These failures would take the generic 500 path.
- Concurrency is not modelled. Each handler runs alone, so the race between the existence check
  and the write in update and delete cannot happen. For the same reason, the backend's upsert of
  an absent key in `update_item` is never reached (`UpdateItem` requires the key to be stored).
- Uniqueness of generated ids and the clock's values are randomness and time. They are
  parameters. Create overwrites an existing id, as `put_item` does, and its contract states the
  effect either way.
- Only `status` is modelled as a reserved word of the backend's expression language. The
  backend reserves many more, but the handler never writes any of them as a bare path.
- Records are assumed to have exactly the six attributes the service writes. An update that
  names any other attribute, or the key attribute, is modelled as rejected. The handler's own
  requests never do either.
