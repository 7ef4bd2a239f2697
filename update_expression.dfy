/**
 * The partial-update request of the update handler: a SET expression over
 * placeholders, the placeholder values and the attribute-name aliases. The
 * handler builds it field by field (BuildUpdate); Describe states the same
 * request from a table of the updatable fields; ApplyUpdate gives the meaning
 * a key-value backend gives to such a request.
 */
module UpdateExpression {
  import opened Optional
  import opened TaskModel

  /** One `path = :placeholder` assignment of a SET expression. */
  datatype Clause = Clause(path: string, placeholder: string)

  /** The update request: its assignments in order, the value of each placeholder, and the alias table if any. */
  datatype Descriptor = Descriptor(
    clauses: seq<Clause>,
    values: map<string, string>,
    names: Option<map<string, string>>)

  /** A body attribute the update handler copies, with the path and placeholder it is written under. */
  datatype Field = Field(attribute: string, path: string, placeholder: string)

  /** The texts the handler's expression is concatenated from. */
  const InitialExpression: string := "SET updated_at = :updated_at"
  const SetTitle: string := ", title = :title"
  const SetDescription: string := ", description = :desc"
  const SetStatus: string := ", #status = :status"

  const TimestampPlaceholder: string := ":updated_at"
  const Timestamp: Clause := Clause("updated_at", TimestampPlaceholder)

  /**
   * The updatable fields in the order the handler appends them. `status` is a
   * reserved word of the backend's expression language, so it is written
   * through the alias `#status`.
   */
  const Fields: seq<Field> := [
    Field("title", "title", ":title"),
    Field("description", "description", ":desc"),
    Field("status", "#status", ":status")
  ]

  /**
   * The reserved words of the backend's expression language that this model
   * knows of: a path that is one of them must be written through an alias.
   */
  const Reserved: set<string> := {"status"}

  predicate IsAlias(path: string)
  {
    |path| > 0 && path[0] == '#'
  }

  /** A request under construction: assignments and values so far, and the aliases used so far. */
  datatype Draft = Draft(clauses: seq<Clause>, values: map<string, string>, aliases: map<string, string>)

  /** The draft for an empty body: only the timestamp assignment and its value. */
  function Start(now: string): Draft
  {
    Draft([Timestamp], map[TimestampPlaceholder := now], map[])
  }

  /** Adds one field to a draft when the body holds it, together with its alias if its path is one. */
  function Include(d: Draft, f: Field, body: Body): Draft
  {
    if f.attribute !in body then d
    else Draft(
      d.clauses + [Clause(f.path, f.placeholder)],
      d.values[f.placeholder := body[f.attribute]],
      if IsAlias(f.path) then d.aliases[f.path := f.attribute] else d.aliases)
  }

  function IncludeAll(d: Draft, fields: seq<Field>, body: Body): Draft
    decreases |fields|
  {
    if fields == [] then d else IncludeAll(Include(d, fields[0], body), fields[1..], body)
  }

  /** The request of a finished draft; an empty alias table is passed as none. */
  function Finish(d: Draft): Descriptor
  {
    Descriptor(d.clauses, d.values, if d.aliases == map[] then None else Some(d.aliases))
  }

  /**
   * The request the update handler means to send for `body` at time `now`:
   * the timestamp assignment, then each field of the table that the body holds.
   */
  function Describe(body: Body, now: string): Descriptor
  {
    Finish(IncludeAll(Start(now), Fields, body))
  }

  /** Describe with its fold over the three fields written out. */
  lemma DescribeUnrolled(body: Body, now: string)
    ensures Describe(body, now) ==
              Finish(Include(Include(Include(Start(now), Fields[0], body), Fields[1], body), Fields[2], body))
  {
  }

  function Assignment(c: Clause): string
  {
    c.path + " = " + c.placeholder
  }

  /** The assignments separated by ", ", in order. */
  function Joined(cs: seq<Clause>): string
  {
    if |cs| == 0 then ""
    else if |cs| == 1 then Assignment(cs[0])
    else Joined(cs[..|cs| - 1]) + ", " + Assignment(cs[|cs| - 1])
  }

  /** The update-expression string of a list of assignments. */
  function Render(cs: seq<Clause>): string
  {
    "SET " + Joined(cs)
  }

  lemma {:induction false} JoinedStartsWithFirst(cs: seq<Clause>)
    requires |cs| > 0
    ensures Assignment(cs[0]) <= Joined(cs)
  {
    if |cs| > 1 {
      JoinedStartsWithFirst(cs[..|cs| - 1]);
    }
  }

  /** A common beginning keeps a prefix a prefix. */
  lemma PrefixExtend(s: string, p: string, q: string)
    requires p <= q
    ensures s + p <= s + q
  {
  }

  /** The handler's texts are the rendering of its assignments. */
  lemma Texts()
    ensures InitialExpression == Render([Timestamp])
    ensures SetTitle == ", " + Assignment(Clause("title", ":title"))
    ensures SetDescription == ", " + Assignment(Clause("description", ":desc"))
    ensures SetStatus == ", " + Assignment(Clause("#status", ":status"))
  {
  }

  /** Appending the text of one more assignment keeps an expression in step with its assignments. */
  lemma AppendAssignment(expression: string, cs: seq<Clause>, c: Clause, text: string)
    requires |cs| > 0 && expression == Render(cs)
    requires text == ", " + Assignment(c)
    ensures expression + text == Render(cs + [c])
  {
  }

  /** Every expression the handler sends starts by refreshing updated_at. */
  lemma RenderStartsWithTimestamp(body: Body, now: string)
    ensures "SET updated_at = :updated_at" <= Render(Describe(body, now).clauses)
  {
    DescribeShape(body, now);
    RenderStartsWith(Describe(body, now).clauses);
  }

  lemma RenderStartsWith(cs: seq<Clause>)
    requires |cs| > 0 && cs[0] == Timestamp
    ensures "SET updated_at = :updated_at" <= Render(cs)
  {
    JoinedStartsWithFirst(cs);
    PrefixExtend("SET ", Assignment(cs[0]), Joined(cs));
    assert "SET " + Assignment(cs[0]) == "SET updated_at = :updated_at";
  }

  /**
   * The request for a body: the timestamp assignment first, then one assignment
   * for each present field in the fixed order title, description, status; a
   * value for `:updated_at` and for exactly the placeholders of the present
   * fields; the alias table `{#status: status}` exactly when status is present,
   * and no table otherwise.
   */
  lemma DescribeShape(body: Body, now: string)
    ensures Describe(body, now).clauses ==
              [Clause("updated_at", ":updated_at")] +
              (if "title" in body then [Clause("title", ":title")] else []) +
              (if "description" in body then [Clause("description", ":desc")] else []) +
              (if "status" in body then [Clause("#status", ":status")] else [])
    ensures Describe(body, now).values.Keys ==
              {":updated_at"} +
              (if "title" in body then {":title"} else {}) +
              (if "description" in body then {":desc"} else {}) +
              (if "status" in body then {":status"} else {})
    ensures Describe(body, now).values[":updated_at"] == now
    ensures "title" in body ==> Describe(body, now).values[":title"] == body["title"]
    ensures "description" in body ==> Describe(body, now).values[":desc"] == body["description"]
    ensures "status" in body ==> Describe(body, now).values[":status"] == body["status"]
    ensures Describe(body, now).names ==
              if "status" in body then Some(map["#status" := "status"]) else None
  {
    DescribeUnrolled(body, now);
    assert !IsAlias("title") && !IsAlias("description") && IsAlias("#status");
    var d1 := Include(Start(now), Fields[0], body);
    var d2 := Include(d1, Fields[1], body);
    var d3 := Include(d2, Fields[2], body);
    assert d2.aliases == map[];
    assert d3.aliases == if "status" in body then map["#status" := "status"] else map[];
    assert "status" in body ==> "#status" in d3.aliases && d3.aliases != map[];
  }

  /** The attribute a path denotes: an alias must be declared in the name table. */
  function ResolvePath(path: string, names: Option<map<string, string>>): Option<string>
  {
    if !IsAlias(path) then Some(path)
    else if names.Some? && path in names.value then Some(names.value[path])
    else None
  }

  /**
   * Sets one attribute of a record. The key attribute cannot be updated, and a
   * record written by the service has no attributes besides its six.
   */
  function SetAttribute(t: Task, attribute: string, v: string): Option<Task>
  {
    if attribute == "title" then Some(t.(title := v))
    else if attribute == "description" then Some(t.(description := v))
    else if attribute == "status" then Some(t.(status := v))
    else if attribute == "created_at" then Some(t.(createdAt := v))
    else if attribute == "updated_at" then Some(t.(updatedAt := v))
    else None
  }

  function ApplyClauses(cs: seq<Clause>, values: map<string, string>,
                        names: Option<map<string, string>>, t: Task): Option<Task>
  {
    if cs == [] then Some(t)
    else
      var attribute := ResolvePath(cs[0].path, names);
      if attribute.None? || cs[0].placeholder !in values then None
      else match SetAttribute(t, attribute.value, values[cs[0].placeholder])
        case None => None
        case Some(t') => ApplyClauses(cs[1..], values, names, t')
  }

  /**
   * What the backend checks of a request before applying it: every supplied
   * placeholder and alias is used, an alias table is never empty, no reserved
   * word stands as a bare path, and no attribute is assigned twice, whether
   * named directly or through an alias.
   */
  predicate WellFormed(d: Descriptor)
  {
    Unreserved(d) && ValuesUsed(d) && NamesUsed(d) && AssignsOnce(d)
  }

  /** No reserved word stands as a bare path. */
  predicate Unreserved(d: Descriptor)
  {
    forall c | c in d.clauses :: c.path !in Reserved
  }

  /** Every supplied placeholder appears in some assignment. */
  predicate ValuesUsed(d: Descriptor)
  {
    forall p | p in d.values :: exists c | c in d.clauses :: c.placeholder == p
  }

  /** An alias table is never empty, and each of its aliases appears in some assignment. */
  predicate NamesUsed(d: Descriptor)
  {
    d.names.Some? ==>
      && d.names.value != map[]
      && forall a | a in d.names.value :: exists c | c in d.clauses :: c.path == a
  }

  /** No two assignments resolve to the same attribute. */
  predicate AssignsOnce(d: Descriptor)
  {
    forall i, j | 0 <= i < j < |d.clauses| ::
      ResolvePath(d.clauses[i].path, d.names) != ResolvePath(d.clauses[j].path, d.names)
  }

  /**
   * The backend refuses a request that assigns one attribute both directly and
   * through an alias, and one that uses a reserved word without an alias.
   */
  lemma OverlapAndReservedRejected()
    ensures !WellFormed(Descriptor([Clause("title", ":a"), Clause("#t", ":b")],
                                   map[":a" := "x", ":b" := "y"], Some(map["#t" := "title"])))
    ensures !WellFormed(Descriptor([Clause("status", ":a")], map[":a" := "x"], None))
  {
    var d := Descriptor([Clause("title", ":a"), Clause("#t", ":b")],
                        map[":a" := "x", ":b" := "y"], Some(map["#t" := "title"]));
    assert IsAlias("#t") && !IsAlias("title");
    assert ResolvePath(d.clauses[0].path, d.names) == ResolvePath(d.clauses[1].path, d.names);
  }

  /** The record after the backend applies a request to it, or None when it rejects the request. */
  function ApplyUpdate(d: Descriptor, t: Task): Option<Task>
  {
    if WellFormed(d) then ApplyClauses(d.clauses, d.values, d.names, t) else None
  }

  /** An accepted update never changes the key of the record. */
  lemma {:induction false} ApplyClausesKeepsId(cs: seq<Clause>, values: map<string, string>,
                                               names: Option<map<string, string>>, t: Task)
    ensures ApplyClauses(cs, values, names, t).Some? ==> ApplyClauses(cs, values, names, t).value.id == t.id
  {
    if cs != [] {
      var attribute := ResolvePath(cs[0].path, names);
      if attribute.Some? && cs[0].placeholder in values {
        var next := SetAttribute(t, attribute.value, values[cs[0].placeholder]);
        if next.Some? {
          ApplyClausesKeepsId(cs[1..], values, names, next.value);
        }
      }
    }
  }

  lemma ApplyUpdateKeepsId(d: Descriptor, t: Task)
    ensures ApplyUpdate(d, t).Some? ==> ApplyUpdate(d, t).value.id == t.id
  {
    ApplyClausesKeepsId(d.clauses, d.values, d.names, t);
  }

  /** The backend accepts every request the handler builds. */
  lemma DescribeWellFormed(body: Body, now: string)
    ensures WellFormed(Describe(body, now))
  {
    DescribeShape(body, now);
    ShapedWellFormed(body, Describe(body, now));
  }

  /** The request DescribeShape states, for a body with the given fields present. */
  predicate Shaped(body: Body, d: Descriptor)
  {
    && d.clauses ==
         [Timestamp] +
         (if "title" in body then [Clause("title", ":title")] else []) +
         (if "description" in body then [Clause("description", ":desc")] else []) +
         (if "status" in body then [Clause("#status", ":status")] else [])
    && d.values.Keys ==
         {":updated_at"} +
         (if "title" in body then {":title"} else {}) +
         (if "description" in body then {":desc"} else {}) +
         (if "status" in body then {":status"} else {})
    && d.names == if "status" in body then Some(map["#status" := "status"]) else None
  }

  /** A request with the shape of DescribeShape is accepted by the backend. */
  lemma ShapedWellFormed(body: Body, d: Descriptor)
    requires Shaped(body, d)
    ensures WellFormed(d)
  {
    ShapedUnreserved(body, d);
    ShapedValuesUsed(body, d);
    ShapedNamesUsed(body, d);
    ShapedAssignsOnce(body, d);
  }

  /** Every assignment of a shaped request is one of the four the handler can write. */
  lemma ShapedClauses(body: Body, d: Descriptor)
    requires Shaped(body, d)
    ensures forall c | c in d.clauses ::
              c == Timestamp || c == Clause("title", ":title") ||
              c == Clause("description", ":desc") || c == Clause("#status", ":status")
    ensures Timestamp in d.clauses
    ensures "title" in body ==> Clause("title", ":title") in d.clauses
    ensures "description" in body ==> Clause("description", ":desc") in d.clauses
    ensures "status" in body ==> Clause("#status", ":status") in d.clauses
  {
    var title := if "title" in body then [Clause("title", ":title")] else [];
    var description := if "description" in body then [Clause("description", ":desc")] else [];
    var status := if "status" in body then [Clause("#status", ":status")] else [];
    assert d.clauses == [Timestamp] + title + description + status;
    assert d.clauses[0] == Timestamp;
    forall c | c in d.clauses
      ensures c == Timestamp || c in title || c in description || c in status
    {
      assert c in [Timestamp] + title + description + status;
    }
    assert "title" in body ==> d.clauses[1] == Clause("title", ":title");
    assert "description" in body ==> d.clauses[1 + |title|] == Clause("description", ":desc");
    assert "status" in body ==> d.clauses[1 + |title| + |description|] == Clause("#status", ":status");
  }

  lemma ShapedUnreserved(body: Body, d: Descriptor)
    requires Shaped(body, d)
    ensures Unreserved(d)
  {
    ShapedClauses(body, d);
  }

  lemma ShapedValuesUsed(body: Body, d: Descriptor)
    requires Shaped(body, d)
    ensures ValuesUsed(d)
  {
    ShapedClauses(body, d);
    forall p | p in d.values
      ensures exists c | c in d.clauses :: c.placeholder == p
    {
      assert p in d.values.Keys;
      if p == ":updated_at" {
        assert Timestamp.placeholder == p;
      } else if p == ":title" {
        assert Clause("title", ":title").placeholder == p;
      } else if p == ":desc" {
        assert Clause("description", ":desc").placeholder == p;
      } else {
        assert Clause("#status", ":status").placeholder == p;
      }
    }
  }

  lemma ShapedNamesUsed(body: Body, d: Descriptor)
    requires Shaped(body, d)
    ensures NamesUsed(d)
  {
    if "status" in body {
      ShapedClauses(body, d);
      assert "#status" in d.names.value;
      assert Clause("#status", ":status").path == "#status";
    }
  }

  lemma ShapedAssignsOnce(body: Body, d: Descriptor)
    requires Shaped(body, d)
    ensures AssignsOnce(d)
  {
    ShapedClauses(body, d);
    assert !IsAlias("updated_at") && !IsAlias("title") && !IsAlias("description") && IsAlias("#status");
    assert "status" in body ==> "#status" in d.names.value;
    forall i, j | 0 <= i < j < |d.clauses|
      ensures ResolvePath(d.clauses[i].path, d.names) != ResolvePath(d.clauses[j].path, d.names)
    {
      ShapedOrder(body, d, i, j);
    }
  }

  /** A shaped request lists no assignment twice. */
  lemma ShapedOrder(body: Body, d: Descriptor, i: int, j: int)
    requires Shaped(body, d)
    requires 0 <= i < j < |d.clauses|
    ensures d.clauses[i] != d.clauses[j]
  {
    var title := if "title" in body then [Clause("title", ":title")] else [];
    var description := if "description" in body then [Clause("description", ":desc")] else [];
    var status := if "status" in body then [Clause("#status", ":status")] else [];
    assert d.clauses == [Timestamp] + title + description + status;
    assert d.clauses[0] == Timestamp;
    assert |title| == 1 ==> d.clauses[1] == title[0];
    assert |description| == 1 ==> d.clauses[1 + |title|] == description[0];
    assert |status| == 1 ==> d.clauses[1 + |title| + |description|] == status[0];
    assert |d.clauses| == 1 + |title| + |description| + |status|;
  }

  /** Applying a list of assignments is applying its first one, then the rest. */
  lemma ApplyFirst(cs: seq<Clause>, values: map<string, string>, names: Option<map<string, string>>,
                   t: Task, attribute: string, t': Task)
    requires |cs| > 0 && cs[0].placeholder in values
    requires ResolvePath(cs[0].path, names) == Some(attribute)
    requires SetAttribute(t, attribute, values[cs[0].placeholder]) == Some(t')
    ensures ApplyClauses(cs, values, names, t) == ApplyClauses(cs[1..], values, names, t')
  {
  }

  /** A request with the shape of DescribeShape applied to a record gives the intended merge. */
  lemma ApplyShaped(body: Body, now: string, t: Task, d: Descriptor)
    requires d.clauses ==
               [Timestamp] +
               (if "title" in body then [Clause("title", ":title")] else []) +
               (if "description" in body then [Clause("description", ":desc")] else []) +
               (if "status" in body then [Clause("#status", ":status")] else [])
    requires ":updated_at" in d.values && d.values[":updated_at"] == now
    requires "title" in body ==> ":title" in d.values && d.values[":title"] == body["title"]
    requires "description" in body ==> ":desc" in d.values && d.values[":desc"] == body["description"]
    requires "status" in body ==> ":status" in d.values && d.values[":status"] == body["status"]
    requires d.names == if "status" in body then Some(map["#status" := "status"]) else None
    ensures ApplyClauses(d.clauses, d.values, d.names, t) == Some(Merge(t, body, now))
  {
    var title := Clause("title", ":title");
    var description := Clause("description", ":desc");
    var status := Clause("#status", ":status");
    var last := if "status" in body then [status] else [];
    var tail := (if "description" in body then [description] else []) + last;
    var cs := (if "title" in body then [title] else []) + tail;
    assert d.clauses == [Timestamp] + cs;
    var t1 := t.(updatedAt := now);
    ApplyFirst(d.clauses, d.values, d.names, t, "updated_at", t1);
    assert d.clauses[1..] == cs;
    var t2 := t1.(title := GetOr(body, "title", t.title));
    if "title" in body {
      ApplyFirst(cs, d.values, d.names, t1, "title", t2);
      assert cs[1..] == tail;
    }
    assert ApplyClauses(cs, d.values, d.names, t1) == ApplyClauses(tail, d.values, d.names, t2);
    var t3 := t2.(description := GetOr(body, "description", t.description));
    if "description" in body {
      ApplyFirst(tail, d.values, d.names, t2, "description", t3);
      assert tail[1..] == last;
    }
    assert ApplyClauses(tail, d.values, d.names, t2) == ApplyClauses(last, d.values, d.names, t3);
    var t4 := t3.(status := GetOr(body, "status", t.status));
    if "status" in body {
      assert IsAlias("#status");
      ApplyFirst(last, d.values, d.names, t3, "status", t4);
      assert last[1..] == [];
    }
    assert ApplyClauses(last, d.values, d.names, t3) == Some(t4);
  }

  /** Applying the request the handler builds to a record gives exactly the intended merge. */
  lemma ApplyDescribe(body: Body, now: string, t: Task)
    ensures ApplyUpdate(Describe(body, now), t) == Some(Merge(t, body, now))
  {
    DescribeWellFormed(body, now);
    DescribeShape(body, now);
    ApplyShaped(body, now, t, Describe(body, now));
  }

  /**
   * The handler's builder: starts from the timestamp assignment and, for each
   * of title, description and status present in the body, appends an
   * assignment to the expression string, a placeholder value and, for status,
   * the alias; an empty alias table is passed as none.
   */
  method BuildUpdate(body: Body, now: string) returns (expression: string, d: Descriptor)
    ensures d == Describe(body, now)
    ensures expression == Render(d.clauses)
  {
    expression := InitialExpression;
    var clauses := [Timestamp];
    var values := map[TimestampPlaceholder := now];
    var names: map<string, string> := map[];
    ghost var draft := Start(now);
    Texts();
    assert expression == Render(clauses) && Draft(clauses, values, names) == draft;
    if "title" in body {
      AppendAssignment(expression, clauses, Clause("title", ":title"), SetTitle);
      expression := expression + SetTitle;
      clauses := clauses + [Clause("title", ":title")];
      values := values[":title" := body["title"]];
    }
    draft := Include(draft, Fields[0], body);
    assert expression == Render(clauses) && Draft(clauses, values, names) == draft;
    if "description" in body {
      AppendAssignment(expression, clauses, Clause("description", ":desc"), SetDescription);
      expression := expression + SetDescription;
      clauses := clauses + [Clause("description", ":desc")];
      values := values[":desc" := body["description"]];
    }
    draft := Include(draft, Fields[1], body);
    assert expression == Render(clauses) && Draft(clauses, values, names) == draft;
    if "status" in body {
      AppendAssignment(expression, clauses, Clause("#status", ":status"), SetStatus);
      expression := expression + SetStatus;
      clauses := clauses + [Clause("#status", ":status")];
      values := values[":status" := body["status"]];
      names := names["#status" := "status"];
    }
    draft := Include(draft, Fields[2], body);
    assert expression == Render(clauses) && Draft(clauses, values, names) == draft;
    d := Descriptor(clauses, values, if names != map[] then Some(names) else None);
    DescribeUnrolled(body, now);
  }
}
