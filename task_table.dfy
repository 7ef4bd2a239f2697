/**
 * The "tasks" table as the handlers see it: a map from id to record, with the
 * backend's point write, point read, full scan, partial update and point delete.
 */
module TaskTable {
  import opened Optional
  import opened TaskModel
  import opened UpdateExpression

  class Table {
    var items: map<string, Task>

    /** Every record is stored under its own id. */
    ghost predicate Valid()
      reads this
    {
      forall k | k in items :: items[k].id == k
    }

    constructor ()
      ensures Valid() && items == map[]
    {
      items := map[];
    }

    /** `get_item`: the record stored under `key`, if any. */
    function GetItem(key: string): (r: Option<Task>)
      reads this
      requires Valid()
      ensures r.Some? <==> key in items
      ensures r.Some? ==> r.value.id == key && r.value == items[key]
    {
      if key in items then Some(items[key]) else None
    }

    /** `put_item`: writes a whole record under its id, replacing any record stored there. */
    method PutItem(t: Task)
      requires Valid()
      modifies this
      ensures Valid()
      ensures items == old(items)[t.id := t]
      ensures t.id !in old(items) ==> |items| == |old(items)| + 1
    {
      items := items[t.id := t];
    }

    /** `scan`: every stored record, each exactly once, in no particular order. */
    method Scan() returns (ts: seq<Task>)
      requires Valid()
      ensures |ts| == |items|
      ensures forall i | 0 <= i < |ts| :: ts[i].id in items && items[ts[i].id] == ts[i]
      ensures forall k | k in items :: items[k] in ts
      ensures forall i, j | 0 <= i < j < |ts| :: ts[i].id != ts[j].id
    {
      ts := [];
      var rest := items.Keys;
      while rest != {}
        invariant rest <= items.Keys
        invariant |ts| + |rest| == |items|
        invariant forall i | 0 <= i < |ts| :: ts[i].id in items && ts[i].id !in rest && items[ts[i].id] == ts[i]
        invariant forall k | k in items && k !in rest :: items[k] in ts
        invariant forall i, j | 0 <= i < j < |ts| :: ts[i].id != ts[j].id
        decreases rest
      {
        var k :| k in rest;
        ts := ts + [items[k]];
        rest := rest - {k};
      }
    }

    /**
     * `update_item` on a stored record: applies the request and returns the
     * record as it is afterwards, or None, leaving the table as it was, when
     * the backend rejects the request.
     */
    method UpdateItem(key: string, d: Descriptor) returns (r: Option<Task>)
      requires Valid() && key in items
      modifies this
      ensures Valid()
      ensures r == ApplyUpdate(d, old(items)[key])
      ensures items == if r.Some? then old(items)[key := r.value] else old(items)
    {
      r := ApplyUpdate(d, items[key]);
      ApplyUpdateKeepsId(d, items[key]);
      if r.Some? {
        items := items[key := r.value];
      }
    }

    /** `delete_item`: removes the record stored under `key`; an absent key changes nothing. */
    method DeleteItem(key: string)
      requires Valid()
      modifies this
      ensures Valid()
      ensures items == old(items) - {key}
      ensures key in old(items) ==> |items| == |old(items)| - 1
    {
      items := items - {key};
    }
  }
}
