/**
 * The task record and the two ways the service builds one: the create handler fills
 * a fresh record from the request body with defaults, and the update handler merges
 * the body's present fields into a stored record.
 */
module TaskModel {
  import opened Optional

  /** A stored task: the six attributes every record written by the service carries. */
  datatype Task = Task(
    id: string,
    title: string,
    description: string,
    status: string,
    createdAt: string,
    updatedAt: string)

  /** A decoded JSON request body: attribute name to value. */
  type Body = map<string, string>

  const DefaultDescription: string := ""
  const DefaultStatus: string := "pending"

  /** The body attributes a client may set; every other key of a body is ignored. */
  const Updatable: set<string> := {"title", "description", "status"}

  /** `body.get(key, default)` */
  function GetOr(body: Body, key: string, default: string): string
  {
    if key in body then body[key] else default
  }

  /** The create handler's precondition on the body: it is present, non-empty and has a title key. */
  predicate HasTitle(body: Option<Body>)
  {
    body.Some? && body.value != map[] && "title" in body.value
  }

  /**
   * The record the create handler writes: the generated id, the title, the
   * description and status or their defaults, and one clock reading per timestamp.
   */
  function NewTask(id: string, body: Body, createdAt: string, updatedAt: string): (t: Task)
    requires "title" in body
    ensures t.id == id && t.title == body["title"]
    ensures t.createdAt == createdAt && t.updatedAt == updatedAt
    ensures "description" !in body ==> t.description == DefaultDescription
    ensures "status" !in body ==> t.status == DefaultStatus
    ensures "description" in body ==> t.description == body["description"]
    ensures "status" in body ==> t.status == body["status"]
  {
    Task(id, body["title"], GetOr(body, "description", DefaultDescription),
         GetOr(body, "status", DefaultStatus), createdAt, updatedAt)
  }

  /**
   * The record the update handler intends: the present fields among title,
   * description and status take the body's values, updated_at takes `now`,
   * everything else keeps its old value.
   */
  function Merge(t: Task, body: Body, now: string): Task
  {
    t.(title := GetOr(body, "title", t.title),
       description := GetOr(body, "description", t.description),
       status := GetOr(body, "status", t.status),
       updatedAt := now)
  }

  /** The body with every key other than the updatable attributes dropped. */
  function Relevant(body: Body): (r: Body)
    ensures r.Keys == body.Keys * Updatable
    ensures forall k :: k in r ==> r[k] == body[k]
  {
    map k | k in body && k in Updatable :: body[k]
  }

  /**
   * A merge changes only updated_at and the present updatable fields; the key,
   * the creation time and the absent fields keep their values, and keys of the
   * body outside title, description and status make no difference.
   */
  lemma MergeFrame(t: Task, body: Body, now: string)
    ensures Merge(t, body, now).id == t.id
    ensures Merge(t, body, now).createdAt == t.createdAt
    ensures Merge(t, body, now).updatedAt == now
    ensures Merge(t, body, now).title == (if "title" in body then body["title"] else t.title)
    ensures Merge(t, body, now).description ==
              (if "description" in body then body["description"] else t.description)
    ensures Merge(t, body, now).status == (if "status" in body then body["status"] else t.status)
    ensures Merge(t, body, now) == Merge(t, Relevant(body), now)
  {
  }

  /** A partial update naming none of the updatable fields only refreshes the modification time. */
  lemma MergeEmpty(t: Task, body: Body, now: string)
    requires body.Keys !! Updatable
    ensures Merge(t, body, now) == t.(updatedAt := now)
  {
  }

  /**
   * Creating a task is merging the body into a blank record that holds the
   * defaults: the defaults survive exactly where the body is silent.
   */
  lemma NewTaskIsMergeIntoDefaults(id: string, body: Body, createdAt: string, updatedAt: string)
    requires "title" in body
    ensures NewTask(id, body, createdAt, updatedAt) ==
              Merge(Task(id, "", DefaultDescription, DefaultStatus, createdAt, createdAt), body, updatedAt)
  {
  }
}
