/**
 * Table provisioning: every request first tries to create the "tasks" table and
 * treats the backend's "already exists" answer as success.
 */
module Provisioning {
  import opened Optional

  const TableName: string := "tasks"

  /** The error code the backend gives when the table to be created exists already. */
  const ResourceInUse: string := "ResourceInUseException"

  /** What one create-table call came back with. */
  datatype CreateAttempt =
    | Created                         // the table was created (and became active)
    | ClientError(code: string)       // the backend refused with an error code
    | OtherFailure(message: string)   // any other exception, e.g. the endpoint is unreachable

  /** A usable reference to a table. */
  datatype Handle = Handle(tableName: string)

  datatype Provisioned = Ready(handle: Handle) | Failed(cause: CreateAttempt)

  /** The outcome classification of `get_table`. */
  function GetTable(attempt: CreateAttempt): (r: Provisioned)
    ensures r.Ready? <==> attempt.Created? || attempt == ClientError(ResourceInUse)
    ensures r.Ready? ==> r.handle == Handle(TableName)
    ensures r.Failed? ==> r.cause == attempt
  {
    match attempt
    case Created => Ready(Handle(TableName))
    case ClientError(code) =>
      if code == ResourceInUse then Ready(Handle(TableName)) else Failed(attempt)
    case OtherFailure(_) => Failed(attempt)
  }

  /** The status code of the health endpoint, which provisions the table. */
  function Health(attempt: CreateAttempt): (code: int)
    ensures code == 200 <==> GetTable(attempt).Ready?
    ensures code != 200 ==> code == 503
  {
    match GetTable(attempt)
    case Ready(_) => 200
    case Failed(_) => 503
  }

  /**
   * An abstract backend's answer to a create-table call, given the names of the
   * tables that exist: an injected fault (permissions, connectivity) wins, an
   * existing name is refused as in use, and otherwise the table is created.
   */
  function CreateTable(tables: set<string>, name: string, fault: Option<CreateAttempt>)
    : (r: (CreateAttempt, set<string>))
    requires fault.Some? ==> !fault.value.Created?
    ensures r.0.Created? ==> name !in tables && r.1 == tables + {name}
    ensures !r.0.Created? ==> r.1 == tables
    ensures fault.None? && name in tables ==> r.0 == ClientError(ResourceInUse)
  {
    if fault.Some? then (fault.value, tables)
    else if name in tables then (ClientError(ResourceInUse), tables)
    else (Created, tables + {name})
  }

  /** `get_table` run against the abstract backend: its outcome and the tables afterwards. */
  function Provision(tables: set<string>, fault: Option<CreateAttempt>): (Provisioned, set<string>)
    requires fault.Some? ==> !fault.value.Created?
  {
    var (attempt, after) := CreateTable(tables, TableName, fault);
    (GetTable(attempt), after)
  }

  /**
   * Provisioning against a backend that already holds the table never fails
   * unless the backend itself does, and it leaves the backend as it was.
   */
  lemma ProvisionExisting(tables: set<string>)
    requires TableName in tables
    ensures Provision(tables, None) == (Ready(Handle(TableName)), tables)
  {
  }

  /**
   * Two fault-free provisioning calls in a row, whether or not the table existed
   * before, both yield the same usable handle and leave the table in place.
   */
  lemma ProvisionTwice(tables: set<string>)
    ensures var (first, after) := Provision(tables, None);
            var (second, final) := Provision(after, None);
            first.Ready? && second == first && TableName in final && final == after
  {
    var (first, after) := Provision(tables, None);
    assert TableName in after;
    ProvisionExisting(after);
  }
}
