/**
 * noona/restAPI/v1/crud/crudMariadb.mjs: `POST /v1/crud/mariadb/:table/:action`.
 * Requests are checked, turned into one parameterised SQL statement on an
 * allow-listed table, and the statement is handed to the connection. The
 * connection is a parameter: `execute` gives the driver's result, or `None`
 * when the statement is rejected.
 */
module CrudMariadb {
  import opened Wrappers
  import opened JsString

  /**
   * A body field (`data` or `filter`) as the handler tests it: absent or
   * `null`; an object with its `Object.keys` order; or a number or boolean,
   * which is truthy or not and has no keys.
   */
  datatype Json = Missing | Obj(entries: seq<(string, string)>) | Scalar(truthy: bool)

  predicate JsonTruthy(j: Json) {
    j.Obj? || (j.Scalar? && j.truthy)
  }

  /** `Object.keys(filter)` paired with `filter[key]`; a non-object has none. */
  function Entries(j: Json): seq<(string, string)> {
    if j.Obj? then j.entries else []
  }

  datatype Kind = Insert | Select | Update | Delete
  datatype Param = DataParam(data: Json) | Value(value: string)
  datatype Statement = Statement(kind: Kind, sql: string, params: seq<Param>)

  datatype QueryResult = QueryResult(insertId: int, affectedRows: nat, rows: seq<seq<(string, string)>>)

  datatype Body =
    | Failure(msg: string)
    | Inserted(insertId: int)
    | Rows(count: nat, results: seq<seq<(string, string)>>)
    | Affected(affectedRows: nat)

  datatype Reply = Reply(status: int, body: Body)

  const AllowedTables: seq<string> := ["users", "orders", "...", "someSafeTable"]

  /** One condition of the WHERE clause: the key between backticks, compared with a placeholder. */
  function Condition(key: string): string {
    "`" + key + "` = ?"
  }

  /** `keys.map(key => condition).join(' AND ')` */
  function Conditions(entries: seq<(string, string)>): string
    requires entries != []
    decreases |entries|
  {
    if |entries| == 1 then Condition(entries[0].0)
    else Conditions(entries[..|entries| - 1]) + " AND " + Condition(entries[|entries| - 1].0)
  }

  /**
   * `buildWhereClause(filter)`: no clause and no values for an empty filter,
   * otherwise `WHERE` and one condition per key, with the values in key order.
   */
  function BuildWhereClause(entries: seq<(string, string)>): (w: (string, seq<string>))
    ensures w.0 == "" <==> entries == []
    ensures entries != [] ==> IsPrefix("WHERE ", w.0)
    ensures |w.1| == |entries| && forall i :: 0 <= i < |entries| ==> w.1[i] == entries[i].1
  {
    if entries == [] then ("", [])
    else ("WHERE " + Conditions(entries), seq(|entries|, i requires 0 <= i < |entries| => entries[i].1))
  }

  /** Placeholders in a text: how many `?` it holds. */
  function Placeholders(s: string): nat
    decreases |s|
  {
    if s == [] then 0 else (if s[0] == '?' then 1 else 0) + Placeholders(s[1..])
  }

  lemma {:induction false} PlaceholdersAppend(a: string, b: string)
    ensures Placeholders(a + b) == Placeholders(a) + Placeholders(b)
    decreases |a|
  {
    if a == [] {
      assert a + b == b;
    } else {
      assert (a + b)[1..] == a[1..] + b;
      PlaceholdersAppend(a[1..], b);
    }
  }

  lemma {:induction false} NoPlaceholder(s: string)
    requires '?' !in s
    ensures Placeholders(s) == 0
    decreases |s|
  {
    if s != [] {
      assert forall c :: c in s[1..] ==> c in s;
      NoPlaceholder(s[1..]);
    }
  }

  lemma OnePlaceholder(a: string, b: string)
    requires '?' !in a && '?' !in b
    ensures Placeholders(a + "?" + b) == 1
  {
    NoPlaceholder(a);
    NoPlaceholder(b);
    PlaceholdersAppend(a, "?");
    PlaceholdersAppend(a + "?", b);
  }

  /** Each key contributes exactly one placeholder, as long as no key itself holds a `?`. */
  lemma {:induction false} ConditionsPlaceholders(entries: seq<(string, string)>)
    requires entries != []
    requires forall i :: 0 <= i < |entries| ==> '?' !in entries[i].0
    ensures Placeholders(Conditions(entries)) == |entries|
    decreases |entries|
  {
    var last := entries[|entries| - 1].0;
    assert Placeholders(Condition(last)) == 1 by {
      OnePlaceholder("`" + last + "` = ", "");
      assert "`" + last + "` = " + "?" + "" == Condition(last);
    }
    if |entries| > 1 {
      ConditionsPlaceholders(entries[..|entries| - 1]);
      var init := Conditions(entries[..|entries| - 1]);
      NoPlaceholder(" AND ");
      PlaceholdersAppend(init, " AND ");
      PlaceholdersAppend(init + " AND ", Condition(last));
    }
  }

  /** The WHERE clause holds exactly one placeholder per bound value. */
  lemma WhereClausePlaceholders(entries: seq<(string, string)>)
    requires forall i :: 0 <= i < |entries| ==> '?' !in entries[i].0
    ensures Placeholders(BuildWhereClause(entries).0) == |BuildWhereClause(entries).1|
  {
    if entries != [] {
      ConditionsPlaceholders(entries);
      NoPlaceholder("WHERE ");
      PlaceholdersAppend("WHERE ", Conditions(entries));
    }
  }

  /** The statement each action issues, once its own checks pass. */
  function CreateStatement(table: string, data: Json): Statement {
    Statement(Insert, "INSERT INTO `" + table + "` SET ?", [DataParam(data)])
  }

  function ValueParams(values: seq<string>): seq<Param> {
    seq(|values|, i requires 0 <= i < |values| => Value(values[i]))
  }

  function ReadStatement(table: string, filter: Json): Statement {
    var (clause, values) := BuildWhereClause(Entries(filter));
    Statement(Select, "SELECT * FROM `" + table + "` " + clause, ValueParams(values))
  }

  function UpdateStatement(table: string, data: Json, filter: Json): Statement {
    var (clause, values) := BuildWhereClause(Entries(filter));
    Statement(Update, "UPDATE `" + table + "` SET ? " + clause, [DataParam(data)] + ValueParams(values))
  }

  function DeleteStatement(table: string, filter: Json): Statement {
    var (clause, values) := BuildWhereClause(Entries(filter));
    Statement(Delete, "DELETE FROM `" + table + "` " + clause, ValueParams(values))
  }

  /** Runs a statement and turns the driver's answer into the reply; a rejected statement is a 500. */
  function Run(action: string, statement: Statement, execute: Statement -> Option<QueryResult>): (res: (Reply, Option<Statement>))
    ensures res.1 == Some(statement)
    ensures res.0.status == 500 <==> execute(statement).None?
    ensures execute(statement).Some? && statement.kind == Insert ==>
      res.0 == Reply(201, Inserted(execute(statement).value.insertId))
    ensures execute(statement).Some? && statement.kind == Select ==>
      res.0 == Reply(200, Rows(|execute(statement).value.rows|, execute(statement).value.rows))
    ensures execute(statement).Some? && (statement.kind == Update || statement.kind == Delete) ==>
      res.0 == Reply(200, Affected(execute(statement).value.affectedRows))
  {
    match execute(statement)
    case None => (Reply(500, Failure("MariaDB " + action + " operation failed")), Some(statement))
    case Some(result) =>
      match statement.kind
      case Insert => (Reply(201, Inserted(result.insertId)), Some(statement))
      case Select => (Reply(200, Rows(|result.rows|, result.rows)), Some(statement))
      case _ => (Reply(200, Affected(result.affectedRows)), Some(statement))
  }

  /** The checks every action passes before its own: headers, route parameters, connection, allow-list. */
  predicate Admitted(table: string, action: string, fromto: Option<string>, time: Option<string>, connected: bool) {
    Truthy(fromto) && Truthy(time) && table != "" && action != "" && connected && table in AllowedTables
  }

  /**
   * The `switch (action?.toLowerCase?.())` once the common checks pass: each
   * action's own body checks, then its one statement; an unknown action is a 400.
   */
  function Dispatch(table: string, action: string, data: Json, filter: Json,
                    execute: Statement -> Option<QueryResult>): (res: (Reply, Option<Statement>))
    ensures res.1.Some? && res.1.value.kind == Insert <==> ToLower(action) == "create" && data.Obj?
    ensures res.1.Some? && res.1.value.kind == Select <==> ToLower(action) == "read"
    ensures res.1.Some? && res.1.value.kind == Update <==>
      ToLower(action) == "update" && JsonTruthy(filter) && JsonTruthy(data) && Entries(filter) != []
    ensures res.1.Some? && res.1.value.kind == Delete <==>
      ToLower(action) == "delete" && filter.Obj? && Entries(filter) != []
    ensures res.1.Some? && res.1.value.kind == Insert ==> res.1.value == CreateStatement(table, data)
    ensures res.1.Some? && res.1.value.kind == Select ==> res.1.value == ReadStatement(table, filter)
    ensures res.1.Some? && res.1.value.kind == Update ==> res.1.value == UpdateStatement(table, data, filter)
    ensures res.1.Some? && res.1.value.kind == Delete ==> res.1.value == DeleteStatement(table, filter)
    ensures ToLower(action) !in {"create", "read", "update", "delete"} ==>
      res == (Reply(400, Failure("Unsupported action: " + action)), None)
    ensures res.1.None? ==> res.0.status == 400
    ensures res.1.Some? ==> res.0 == Run(action, res.1.value, execute).0
  {
    var lowered := ToLower(action);
    if lowered == "create" then
      if !data.Obj? then (Reply(400, Failure("Missing or invalid \"data\" for create")), None)
      else Run(action, CreateStatement(table, data), execute)
    else if lowered == "read" then
      Run(action, ReadStatement(table, filter), execute)
    else if lowered == "update" then
      if !JsonTruthy(filter) || !JsonTruthy(data) then (Reply(400, Failure("Missing \"filter\" or \"data\" for update")), None)
      else if Entries(filter) == [] then (Reply(400, Failure("Empty filter provided for update")), None)
      else Run(action, UpdateStatement(table, data, filter), execute)
    else if lowered == "delete" then
      if !filter.Obj? then (Reply(400, Failure("Missing or invalid \"filter\" for delete")), None)
      else if Entries(filter) == [] then (Reply(400, Failure("Empty filter provided for delete")), None)
      else Run(action, DeleteStatement(table, filter), execute)
    else (Reply(400, Failure("Unsupported action: " + action)), None)
  }

  /**
   * The route handler: the reply, and the statement sent to the database if
   * any. The checks, in order: headers, route parameters, the connection
   * (`connected`: `getMariaDBConnection()` gave one), the table allow-list,
   * then the lower-cased action's own body checks.
   */
  function HandleCrudMariadb(table: string, action: string, fromto: Option<string>, time: Option<string>,
                             data: Json, filter: Json, connected: bool,
                             execute: Statement -> Option<QueryResult>): (res: (Reply, Option<Statement>))
    ensures !Truthy(fromto) || !Truthy(time) ==>
      res == (Reply(400, Failure("Missing required headers (fromto, time)")), None)
    ensures res.0.status == 503 <==> Truthy(fromto) && Truthy(time) && table != "" && action != "" && !connected
    ensures !Admitted(table, action, fromto, time, connected) ==> res.1.None? && (res.0.status == 400 || res.0.status == 503)
    ensures Admitted(table, action, fromto, time, connected) ==> res == Dispatch(table, action, data, filter, execute)
    ensures res.1.Some? && (res.1.value.kind == Update || res.1.value.kind == Delete) ==> (
              && Entries(filter) != []
              && var (clause, _) := BuildWhereClause(Entries(filter)); EndsWith(res.1.value.sql, clause))
    ensures res.1.None? ==> res.0.status == 400 || res.0.status == 503
    ensures res.0.status == 500 <==> res.1.Some? && execute(res.1.value).None?
  {
    if !Truthy(fromto) || !Truthy(time) then (Reply(400, Failure("Missing required headers (fromto, time)")), None)
    else if table == "" || action == "" then (Reply(400, Failure("Missing table or action in route")), None)
    else if !connected then (Reply(503, Failure("MariaDB connection unavailable")), None)
    else if table !in AllowedTables then (Reply(400, Failure("Invalid table name")), None)
    else Dispatch(table, action, data, filter, execute)
  }

  /**
   * `action` is matched case-insensitively: an action and its lower-cased form
   * issue the same statement and answer with the same status.
   */
  lemma ActionCaseInsensitive(table: string, action: string, fromto: Option<string>, time: Option<string>,
                              data: Json, filter: Json, connected: bool,
                              execute: Statement -> Option<QueryResult>)
    requires action != ""
    ensures var r, l := HandleCrudMariadb(table, action, fromto, time, data, filter, connected, execute),
                        HandleCrudMariadb(table, ToLower(action), fromto, time, data, filter, connected, execute);
      r.1 == l.1 && r.0.status == l.0.status
  {
    ToLowerIdempotent(action);
  }

  /** None of the allow-listed table names holds a `?`. */
  lemma AllowedTablesPlain(table: string)
    requires table in AllowedTables
    ensures '?' !in table
  {
    assert table == AllowedTables[0] || table == AllowedTables[1] || table == AllowedTables[2] || table == AllowedTables[3];
  }

  /** Text around a plain table name adds no placeholder to a clause. */
  lemma FramedPlaceholders(prefix: string, table: string, middle: string, clause: string)
    requires '?' !in prefix && '?' !in table && '?' !in middle
    ensures Placeholders(prefix + table + middle + clause) == Placeholders(clause)
  {
    NoPlaceholder(prefix);
    NoPlaceholder(table);
    NoPlaceholder(middle);
    PlaceholdersAppend(prefix, table);
    PlaceholdersAppend(prefix + table, middle);
    PlaceholdersAppend(prefix + table + middle, clause);
  }

  /** The same with the one `?` of `SET ?` in the fixed text. */
  lemma FramedSetPlaceholders(prefix: string, table: string, middle: string, rest: string, clause: string)
    requires '?' !in prefix && '?' !in table && '?' !in middle && '?' !in rest
    ensures Placeholders(prefix + table + middle + "?" + rest + clause) == 1 + Placeholders(clause)
  {
    OnePlaceholder(prefix + table + middle, rest);
    assert '?' !in prefix + table + middle;
    PlaceholdersAppend(prefix + table + middle + "?" + rest, clause);
    assert prefix + table + middle + "?" + rest + clause == (prefix + table + middle) + "?" + rest + clause;
  }

  lemma CreatePlaceholders(table: string, data: Json)
    requires '?' !in table
    ensures Placeholders(CreateStatement(table, data).sql) == |CreateStatement(table, data).params|
  {
    FramedSetPlaceholders("INSERT INTO `", table, "` SET ", "", "");
    NoPlaceholder("");
    assert "INSERT INTO `" + table + "` SET " + "?" + "" + "" == CreateStatement(table, data).sql;
  }

  lemma ReadPlaceholders(table: string, filter: Json)
    requires '?' !in table
    requires forall i :: 0 <= i < |Entries(filter)| ==> '?' !in Entries(filter)[i].0
    ensures Placeholders(ReadStatement(table, filter).sql) == |ReadStatement(table, filter).params|
  {
    var w := BuildWhereClause(Entries(filter));
    WhereClausePlaceholders(Entries(filter));
    FramedPlaceholders("SELECT * FROM `", table, "` ", w.0);
    assert ReadStatement(table, filter) == Statement(Select, "SELECT * FROM `" + table + "` " + w.0, ValueParams(w.1));
  }

  lemma UpdatePlaceholders(table: string, data: Json, filter: Json)
    requires '?' !in table
    requires forall i :: 0 <= i < |Entries(filter)| ==> '?' !in Entries(filter)[i].0
    ensures Placeholders(UpdateStatement(table, data, filter).sql) == |UpdateStatement(table, data, filter).params|
  {
    var w := BuildWhereClause(Entries(filter));
    WhereClausePlaceholders(Entries(filter));
    FramedSetPlaceholders("UPDATE `", table, "` SET ", " ", w.0);
    assert "UPDATE `" + table + "` SET " + "?" + " " + w.0 == "UPDATE `" + table + "` SET ? " + w.0;
    assert UpdateStatement(table, data, filter)
      == Statement(Update, "UPDATE `" + table + "` SET ? " + w.0, [DataParam(data)] + ValueParams(w.1));
  }

  lemma DeletePlaceholders(table: string, filter: Json)
    requires '?' !in table
    requires forall i :: 0 <= i < |Entries(filter)| ==> '?' !in Entries(filter)[i].0
    ensures Placeholders(DeleteStatement(table, filter).sql) == |DeleteStatement(table, filter).params|
  {
    var w := BuildWhereClause(Entries(filter));
    WhereClausePlaceholders(Entries(filter));
    FramedPlaceholders("DELETE FROM `", table, "` ", w.0);
    assert DeleteStatement(table, filter) == Statement(Delete, "DELETE FROM `" + table + "` " + w.0, ValueParams(w.1));
  }

  /**
   * Every statement the handler sends binds exactly as many parameters as it
   * has placeholders, provided no filter key holds a `?`.
   */
  lemma StatementPlaceholders(table: string, action: string, fromto: Option<string>, time: Option<string>,
                              data: Json, filter: Json, connected: bool,
                              execute: Statement -> Option<QueryResult>)
    requires forall i :: 0 <= i < |Entries(filter)| ==> '?' !in Entries(filter)[i].0
    ensures var (_, issued) := HandleCrudMariadb(table, action, fromto, time, data, filter, connected, execute);
      issued.Some? ==> Placeholders(issued.value.sql) == |issued.value.params|
  {
    if table in AllowedTables {
      AllowedTablesPlain(table);
      CreatePlaceholders(table, data);
      ReadPlaceholders(table, filter);
      UpdatePlaceholders(table, data, filter);
      DeletePlaceholders(table, filter);
    }
  }
}
