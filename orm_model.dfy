/** A model: one table with its schema and optional seed rows. Its methods
    assemble the SELECT, INSERT, UPDATE and DELETE statements of the table,
    send them over a connection and hand back the rows. */
module OrmModel {

  import opened Wrappers
  import opened JsString
  import opened JsValue
  import opened OrmTypes
  import opened OrmConditions
  import opened OrmBuilders
  import opened OrmExecutor
  import opened OrmDefine

  /** A statement as the model hands it to `preparedStatement`. */
  datatype Query = Query(name: Option<string>, text: string, values: seq<Value>)

  /** The statement that reaches the server for `q`. */
  function SentAs(q: Query, hash: string -> string): Statement
  {
    Statement(PreparedName(q.name, q.text, hash), q.text, q.values)
  }

  /** After an attempt to build and send `q`: nothing was sent if building
      threw, otherwise exactly `q` was appended to the log. */
  ghost predicate Issued(db: Executor, before: seq<Statement>, q: Result<Query>)
    reads db
  {
    match q
    case Err(_) => db.issued == before
    case Ok(x) => db.issued == before + [SentAs(x, db.hash)]
  }

  /** What the attempt produced: the error that stopped it, or the answer. */
  ghost function Returned(db: Executor, before: seq<Statement>, q: Result<Query>): Result<QueryResult>
    reads db
    requires Issued(db, before, q)
  {
    match q
    case Err(e) => Err(e)
    case Ok(_) => db.Answer(|before|)
  }

  function RowsOf(a: Result<QueryResult>): Result<seq<Value>>
  {
    match a
    case Err(e) => Err(e)
    case Ok(res) => Ok(res.rows)
  }

  /** `const [row] = rows`: the first row, or undefined. */
  function FirstRow(a: Result<seq<Value>>): Result<Value>
  {
    match a
    case Err(e) => Err(e)
    case Ok(rows) => Ok(if rows == [] then Undefined else rows[0])
  }

  /** `if (s) sql.push(s)`: a clause that is added only when it is not empty. */
  function PushIf(sql: seq<string>, s: string): seq<string>
  {
    if s == "" then sql else sql + [s]
  }

  // ---------------------------------------------------------------------
  // SELECT
  // ---------------------------------------------------------------------

  /** The LIMIT clause, present when the limit is truthy. */
  function LimitText(limit: Option<int>): string
  {
    if limit.Some? && limit.value != 0 then "LIMIT\n\t" + IntToString(limit.value) else ""
  }

  /** The OFFSET clause, present when the computed offset is truthy. */
  function OffsetText(offset: Option<int>): string
  {
    if offset.Some? && offset.value != 0 then "OFFSET\n\t" + IntToString(offset.value) else ""
  }

  /** The lines of a SELECT, in their fixed order. */
  function FindLines(tableName: string, args: SelectArgs, conditions: string): seq<string>
  {
    var sql := ["SELECT", "\t" + CreateSelect(args.select), "FROM\n\t" + tableName];
    var sql := PushIf(PushIf(sql, CreateJoin(args.join)), conditions);
    var sql := PushIf(PushIf(sql, CreateGroupBy(args.groupBy)), CreateOrder(args.orderBy));
    PushIf(PushIf(sql, LimitText(args.limit)), OffsetText(CreateOffset(args.page, args.offset, args.limit)))
  }

  /** The line-by-line assembly of a SELECT in `find`. */
  method SelectLines(tableName: string, args: SelectArgs, conditions: string) returns (sql: seq<string>)
    ensures sql == FindLines(tableName, args, conditions)
  {
    sql := ["SELECT"];
    sql := sql + ["\t" + CreateSelect(args.select)];
    sql := sql + ["FROM\n\t" + tableName];
    assert sql == ["SELECT", "\t" + CreateSelect(args.select), "FROM\n\t" + tableName];
    ghost var expected := sql;
    var joinClause := CreateJoin(args.join);
    if joinClause != "" {
      sql := sql + [joinClause];
    }
    expected := PushIf(expected, joinClause);
    if conditions != "" {
      sql := sql + [conditions];
    }
    expected := PushIf(expected, conditions);
    var groupByClause := CreateGroupBy(args.groupBy);
    if groupByClause != "" {
      sql := sql + [groupByClause];
    }
    expected := PushIf(expected, groupByClause);
    var orderByClause := CreateOrder(args.orderBy);
    if orderByClause != "" {
      sql := sql + [orderByClause];
    }
    expected := PushIf(expected, orderByClause);
    assert sql == expected;
    if args.limit.Some? && args.limit.value != 0 {
      sql := sql + ["LIMIT\n\t" + IntToString(args.limit.value)];
    }
    expected := PushIf(expected, LimitText(args.limit));
    var offset := CreateOffset(args.page, args.offset, args.limit);
    if offset.Some? && offset.value != 0 {
      sql := sql + ["OFFSET\n\t" + IntToString(offset.value)];
    }
    expected := PushIf(expected, OffsetText(offset));
    assert sql == expected;
  }

  /** The statement of `find`: unnamed, with the values of its WHERE fragment. */
  function FindQuery(tableName: string, args: SelectArgs): (r: Result<Query>)
    ensures r.Err? <==> WhereClause(args.where, 0).Err?
    ensures r.Ok? ==> r.value.name.None? && r.value.values == WhereClause(args.where, 0).value.values
  {
    match WhereClause(args.where, 0)
    case Err(e) => Err(e)
    case Ok(c) => Ok(Query(None, Join(FindLines(tableName, args, c.conditions), "\n"), c.values))
  }

  /** The value list of a SELECT is exactly what its placeholders `$1..$n`
      refer to. */
  lemma FindValues(tableName: string, args: SelectArgs)
    requires args.where.Some? && CompileMap(args.where.value, 0, None).Ok?
    ensures var c := CompileMap(args.where.value, 0, None).value;
      && FindQuery(tableName, args).Ok?
      && FindQuery(tableName, args).value.values == c.values
      && PlaceholdersAll(c.clauses) == Range(1, 1 + |c.values|)
  {
    WhereValues(args.where.value, 0);
  }

  /** The arguments `findOne` passes on: the same, limited to one row. */
  function FindOneArgs(args: SelectArgs): SelectArgs
  {
    args.(limit := Some(1))
  }

  /** The arguments `findById` passes on: a condition on `id` and the
      selection, which defaults to every column. */
  function FindByIdArgs(id: Value, select: Option<Names>): SelectArgs
  {
    SelectArgs(Some(if select.Some? then select.value else Name("*")), Some([Field("id", id)]),
               None, [], None, None, None, None)
  }

  /** `findOne` always limits the SELECT to one row; without paging the
      LIMIT is its last clause. */
  lemma FindOneLimit(tableName: string, args: SelectArgs, conditions: string)
    ensures "LIMIT\n\t1" in FindLines(tableName, FindOneArgs(args), conditions)
    ensures (args.offset.None? || args.offset == Some(0)) && (args.page.None? || args.page == Some(0)) ==>
      var lines := FindLines(tableName, FindOneArgs(args), conditions);
      lines[|lines| - 1] == "LIMIT\n\t1"
  {
    assert LimitText(Some(1)) == "LIMIT\n\t1";
  }

  /** A level with the single key `id` compiles as that one leaf. */
  lemma IdLevel(id: Value)
    requires !id.Obj?
    ensures CompileMap([Field("id", id)], 0, None) == CompileLeaf("id", id, 0, None)
  {
    var fs := [Field("id", id)];
    UpToUnfold(fs, 0, 0, 0, None, Compiled([], []));
    assert CompileEntry(fs[0], 0, None) == CompileLeaf("id", id, 0, None);
    var leaf := CompileLeaf("id", id, 0, None);
    assert leaf.Ok?;
    assert [] + leaf.value.clauses == leaf.value.clauses;
    assert [] + leaf.value.values == leaf.value.values;
  }

  /** `findById` binds the id as `$1` in a single equality, unless the id is
      `undefined`, in which case no condition is emitted and the first row of
      the table is returned; a `null` id tests `IS NULL`. */
  lemma FindByIdCondition(tableName: string, id: Value, select: Option<Names>)
    requires !id.Obj?
    ensures FindQuery(tableName, FindByIdArgs(id, select)).Ok?
    ensures !id.Undefined? && !id.Null? ==>
      && WhereClause(Some([Field("id", id)]), 0) == Ok(Conditions("WHERE\n\t\"id\" = $1", [id]))
      && FindQuery(tableName, FindByIdArgs(id, select)).value.values == [id]
    ensures id.Null? ==> WhereClause(Some([Field("id", id)]), 0) == Ok(Conditions("WHERE\n\t\"id\" IS NULL", []))
    ensures id.Undefined? ==> WhereClause(Some([Field("id", id)]), 0) == Ok(NoConditions)
  {
    if !id.Undefined? && !id.Null? {
      IdEquality(id);
    } else if id.Null? {
      IdIsNull(id);
    } else {
      IdLevel(id);
      assert !IsOperatorKey("id");
    }
  }

  /** A defined, non-null id compiles to `"id" = $1`. */
  lemma IdEquality(id: Value)
    requires !id.Obj? && !id.Undefined? && !id.Null?
    ensures WhereClause(Some([Field("id", id)]), 0) == Ok(Conditions("WHERE\n\t\"id\" = $1", [id]))
  {
    IdLevel(id);
    assert !IsOperatorKey("id");
    assert '.' !in "id";
    var c := Compare(Quote("id"), "=", 1);
    assert CompileMap([Field("id", id)], 0, None) == Ok(Compiled([c], [id]));
    EqualityText();
  }

  /** The rendering of the single clause `"id" = $1`. */
  lemma EqualityText()
    ensures "WHERE\n\t" + Join(RenderAll([Compare(Quote("id"), "=", 1)]), " AND ") == "WHERE\n\t\"id\" = $1"
  {
    var c := Compare(Quote("id"), "=", 1);
    assert NatToString(1) == "1";
    assert Render(c) == "\"id\" = $1";
    assert RenderAll([c]) == [Render(c)];
    assert Join([Render(c)], " AND ") == Render(c);
  }

  /** A null id compiles to `"id" IS NULL`. */
  lemma IdIsNull(id: Value)
    requires id.Null?
    ensures WhereClause(Some([Field("id", id)]), 0) == Ok(Conditions("WHERE\n\t\"id\" IS NULL", []))
  {
    IdLevel(id);
    assert !IsOperatorKey("id");
    assert CompileMap([Field("id", id)], 0, None) == Ok(Compiled([IsNull("id")], []));
    IsNullText();
  }

  /** The rendering of the single clause `"id" IS NULL`. */
  lemma IsNullText()
    ensures "WHERE\n\t" + Join(RenderAll([IsNull("id")]), " AND ") == "WHERE\n\t\"id\" IS NULL"
  {
    assert RenderAll([IsNull("id")]) == [Render(IsNull("id"))];
    assert Join([Render(IsNull("id"))], " AND ") == Render(IsNull("id"));
    assert Render(IsNull("id")) == "\"id\" IS NULL";
  }

  // ---------------------------------------------------------------------
  // UPDATE
  // ---------------------------------------------------------------------

  /** The entries of the `set` map whose value is not `undefined`, in order. */
  function SetFields(changes: seq<Field>): (r: seq<Field>)
    ensures |r| <= |changes|
    ensures forall f :: f in r <==> f in changes && !f.val.Undefined?
  {
    if changes == [] then []
    else
      var last := changes[|changes| - 1];
      assert changes == changes[..|changes| - 1] + [last];
      SetFields(changes[..|changes| - 1]) + (if last.val.Undefined? then [] else [last])
  }

  /** The SET clause: a parenthesised tuple for more than one column, a
      single assignment otherwise. */
  function SetText(columns: seq<string>, tokens: seq<string>): string
  {
    if |columns| > 1 then "SET\n\t(" + Join(columns, ", ") + ") =\n\t(" + Join(tokens, ", ") + ")"
    else "SET\n\t" + Join(columns, ", ") + " = " + Join(tokens, ", ")
  }

  /** The assigned columns, quoted, with `updatedAt` last when the table has it. */
  function SetColumns(changes: seq<Field>, hasUpdatedAt: bool): seq<string>
  {
    QuoteAll(Keys(SetFields(changes))) + (if hasUpdatedAt then [Quote("updatedAt")] else [])
  }

  /** `$1..$k` for the assigned values, then the current time for `updatedAt`. */
  function SetTokens(changes: seq<Field>, hasUpdatedAt: bool): seq<string>
  {
    Tokens(0, |SetFields(changes)|) + (if hasUpdatedAt then ["CURRENT_TIMESTAMP"] else [])
  }

  /** The statement of `update`: the assigned values take `$1..$k` and the
      WHERE fragment is numbered from `$(k+1)`. */
  function UpdateQuery(tableName: string, schema: Schema, changes: seq<Field>,
                       where: Option<seq<Field>>, returning: Option<Names>): (r: Result<Query>)
    ensures r.Err? <==> WhereClause(where, |SetFields(changes)|).Err?
    ensures r.Ok? ==>
      r.value.name.None? && r.value.values == Vals(SetFields(changes)) + WhereClause(where, |SetFields(changes)|).value.values
  {
    var fields := SetFields(changes);
    match WhereClause(where, |fields|)
    case Err(e) => Err(e)
    case Ok(c) =>
      var has := "updatedAt" in ColumnNames(schema);
      Ok(Query(None, Join(UpdateLines(tableName, changes, has, c.conditions, returning), "\n"), Vals(fields) + c.values))
  }

  /** The lines of an UPDATE, in their fixed order. */
  function UpdateLines(tableName: string, changes: seq<Field>, hasUpdatedAt: bool,
                       conditions: string, returning: Option<Names>): seq<string>
  {
    ["UPDATE\n\t" + tableName, SetText(SetColumns(changes, hasUpdatedAt), SetTokens(changes, hasUpdatedAt)),
     conditions, CreateReturning(returning)]
  }

  /** The line-by-line assembly of an UPDATE in `update`. */
  method AssembleUpdate(tableName: string, changes: seq<Field>, hasUpdatedAt: bool,
                        conditions: string, returning: Option<Names>) returns (sql: seq<string>)
    ensures sql == UpdateLines(tableName, changes, hasUpdatedAt, conditions, returning)
  {
    var setFields := SetFields(changes);
    sql := ["UPDATE\n\t" + tableName];
    var columnPlaceholders := QuoteAll(Keys(setFields));
    var valuePlaceholders := Tokens(0, |setFields|);
    if hasUpdatedAt {
      columnPlaceholders := columnPlaceholders + [Quote("updatedAt")];
      valuePlaceholders := valuePlaceholders + ["CURRENT_TIMESTAMP"];
    }
    var setClause := if |columnPlaceholders| > 1
      then "SET\n\t(" + Join(columnPlaceholders, ", ") + ") =\n\t(" + Join(valuePlaceholders, ", ") + ")"
      else "SET\n\t" + Join(columnPlaceholders, ", ") + " = " + Join(valuePlaceholders, ", ");
    sql := sql + [setClause];
    sql := sql + [conditions];
    sql := sql + [CreateReturning(returning)];
    assert columnPlaceholders == SetColumns(changes, hasUpdatedAt);
    assert valuePlaceholders == SetTokens(changes, hasUpdatedAt);
  }

  /** Placeholders of an UPDATE run on without a gap: `$j` (for `j <= k`)
      binds the `j`-th assigned value, and the values of the WHERE fragment,
      numbered from `$(k+1)` (`WhereValues`), follow them. */
  lemma UpdateBinding(tableName: string, schema: Schema, changes: seq<Field>,
                      where: seq<Field>, returning: Option<Names>)
    requires CompileMap(where, |SetFields(changes)|, None).Ok?
    ensures UpdateQuery(tableName, schema, changes, Some(where), returning).Ok?
    ensures UpdateQuery(tableName, schema, changes, Some(where), returning).value.values ==
              Vals(SetFields(changes)) + CompileMap(where, |SetFields(changes)|, None).value.values
    ensures forall j :: 0 <= j < |SetFields(changes)| ==> SetTokens(changes, false)[j] == Token(j + 1)
  {
    var k := |SetFields(changes)|;
    WhereValues(where, k);
    var q := UpdateQuery(tableName, schema, changes, Some(where), returning);
    assert q.Ok?;
    var toks := SetTokens(changes, false);
    assert toks == Tokens(0, k) + [];
    forall j | 0 <= j < k
      ensures toks[j] == Token(j + 1)
    {
      assert toks[j] == Tokens(0, k)[j];
    }
  }

  /** The tuple form of SET is used exactly when more than one column is
      changes, counting `updatedAt`. */
  lemma UpdateSetForm(changes: seq<Field>, hasUpdatedAt: bool)
    ensures var cols := SetColumns(changes, hasUpdatedAt);
      var text := SetText(cols, SetTokens(changes, hasUpdatedAt));
      StartsWith(text, "SET\n\t(") <==> |cols| > 1
  {
    var cols := SetColumns(changes, hasUpdatedAt);
    var toks := SetTokens(changes, hasUpdatedAt);
    var text := SetText(cols, toks);
    if |cols| <= 1 {
      var rest := Join(cols, ", ") + " = " + Join(toks, ", ");
      assert text == "SET\n\t" + rest;
      if cols == [] {
        assert rest[0] == ' ';
      } else {
        assert Join(cols, ", ") == cols[0];
        assert cols[0][0] == '"';
        assert rest[0] == '"';
      }
      assert text[5] == rest[0];
    }
  }

  /** `update` has no guard against a missing WHERE: it then rewrites every
      row and binds only the changes values. */
  lemma UpdateWithoutWhere(tableName: string, schema: Schema, changes: seq<Field>, returning: Option<Names>)
    ensures UpdateQuery(tableName, schema, changes, None, returning).Ok?
    ensures UpdateQuery(tableName, schema, changes, None, returning).value.values == Vals(SetFields(changes))
  {
  }

  // ---------------------------------------------------------------------
  // DELETE
  // ---------------------------------------------------------------------

  const DeleteGuardError := "Where must have conditions in Model.delete"

  /** The statement of `delete`; a missing or key-less `where` throws first. */
  function DeleteQuery(tableName: string, where: Option<seq<Field>>, returning: Option<Names>): (r: Result<Query>)
    ensures (where.None? || where == Some([])) ==> r == Err(DeleteGuardError)
    ensures where.Some? && where.value != [] ==>
      (r.Err? <==> WhereClause(where, 0).Err?) &&
      (r.Ok? ==> r.value.values == WhereClause(where, 0).value.values)
  {
    if where.None? || where.value == [] then Err(DeleteGuardError)
    else
      match WhereClause(where, 0)
      case Err(e) => Err(e)
      case Ok(c) =>
        Ok(Query(None, Join(["DELETE FROM\n\t" + tableName, c.conditions, CreateReturning(returning)], "\n"), c.values))
  }

  /** The guard counts keys, not conditions: a `where` whose every value is
      `undefined` passes it and produces a DELETE without a WHERE clause. */
  lemma DeleteAllUndefined(tableName: string, where: seq<Field>, returning: Option<Names>)
    requires where != []
    requires forall i :: 0 <= i < |where| ==> where[i].val.Undefined? && !IsOperatorKey(where[i].key)
    ensures DeleteQuery(tableName, Some(where), returning) ==
      Ok(Query(None, Join(["DELETE FROM\n\t" + tableName, "", CreateReturning(returning)], "\n"), []))
  {
    AllUndefinedWhere(where, 0);
  }

  /** The text of `deleteById`, as laid out in the template literal. */
  function DeleteByIdText(tableName: string): string
  {
    "\n          DELETE FROM\n            " + tableName + "\n          WHERE\n            id = $1\n        "
  }

  // ---------------------------------------------------------------------
  // INSERT
  // ---------------------------------------------------------------------

  /** No row of `data` is truthy. */
  predicate NoTruthy(data: seq<Value>)
  {
    forall j :: 0 <= j < |data| ==> !Truthy(data[j])
  }

  /** The statement of `bulkCreate`, or none when there is nothing truthy to
      insert. The INSERT itself is built from the unfiltered rows. */
  function BulkQuery(tableName: string, schema: Schema, data: seq<Value>, returning: Option<Names>,
                     hash: string -> string): (r: Result<Option<Query>>)
    ensures NoTruthy(data) ==> r == Ok(None)
  {
    if data == [] || NoTruthy(data) then Ok(None)
    else
      match InsertOf(data, returning, tableName, ColumnsOf(schema, InsertOptions), hash)
      case Err(e) => Err(e)
      case Ok(ins) => Ok(Some(Query(Some(ins.name), Join(["INSERT INTO\n\t" + Quote(tableName), ins.text], "\n"), ins.values)))
  }

  /** With at least one truthy row, every row (falsy ones included) binds one
      value per inserted column, and the insert throws exactly when a column
      is read from an `undefined` or `null` row. */
  lemma BulkQueryShape(tableName: string, schema: Schema, data: seq<Value>, returning: Option<Names>,
                       hash: string -> string)
    requires !NoTruthy(data)
    ensures var cols := ColumnsOf(schema, InsertOptions);
      var r := BulkQuery(tableName, schema, data, returning, hash);
      && (r.Err? <==> cols != [] && exists j :: 0 <= j < |data| && (data[j].Undefined? || data[j].Null?))
      && (r.Ok? ==> r.value.Some? && |r.value.value.values| == |data| * |Dedup(cols)|)
  {
    InsertShape(data, returning, tableName, ColumnsOf(schema, InsertOptions), hash);
  }

  /** A short table name slices the INSERT's name down to nothing, so the
      statement is sent under the digest of its text. */
  lemma BulkQueryName(tableName: string, schema: Schema, data: seq<Value>, returning: Option<Names>,
                      hash: string -> string)
    requires |tableName + "-" + NatToString(|data|) + "-" + hash(CreateReturning(returning))| <= 63
    requires BulkQuery(tableName, schema, data, returning, hash).Ok?
    requires BulkQuery(tableName, schema, data, returning, hash).value.Some?
    ensures var q := BulkQuery(tableName, schema, data, returning, hash).value.value;
      SentAs(q, hash).name == hash(q.text)
  {
    ShortInsertName(data, returning, tableName, ColumnsOf(schema, InsertOptions), hash);
  }

  // ---------------------------------------------------------------------
  // seed
  // ---------------------------------------------------------------------

  function CountQuery(tableName: string): Query
  {
    Query(Some(tableName + "-getCount"), "SELECT count(*) FROM " + Quote(tableName), [])
  }

  /** A non-empty string of decimal digits that is not all zeros. */
  predicate PositiveDigits(s: string)
  {
    s != [] && (forall i :: 0 <= i < |s| ==> IsDigit(s[i])) && exists i :: 0 <= i < |s| && s[i] != '0'
  }

  /** `count > 0` for the count the server returns: a number, a boolean, or
      the decimal text PostgreSQL uses for a bigint. */
  predicate CountPositive(v: Value)
  {
    match v
    case Num(n) => n > 0
    case Bool(b) => b
    case Str(s) => PositiveDigits(s)
    case _ => false
  }

  /** The decimal text of a count is positive exactly when the count is. */
  lemma {:induction false} CountText(n: nat)
    ensures CountPositive(Str(NatToString(n))) <==> n > 0
  {
    var s := NatToString(n);
    if n < 10 {
      assert s == [DigitChar(n)];
      if n == 0 {
        assert s == "0";
      } else {
        assert s[0] != '0';
      }
    } else {
      CountText(n / 10);
      var t := NatToString(n / 10);
      assert s == t + [DigitChar(n % 10)];
      var i :| 0 <= i < |t| && t[i] != '0';
      assert s[i] == t[i];
    }
  }

  /** The outcome of the count query: an error, or whether the count is positive. */
  function CountCheck(a: Result<QueryResult>): Result<bool>
  {
    match a
    case Err(e) => Err(e)
    case Ok(res) =>
      var row := if res.rows == [] then Undefined else res.rows[0];
      match ReadProperty(row, "count")
      case Err(e) => Err(e)
      case Ok(count) => Ok(CountPositive(count))
  }

  predicate NoSeedData(seedData: Option<seq<Value>>)
  {
    seedData.None? || seedData.value == []
  }

  /** What `seed` sends and returns when the server answers from position
      `start` on: nothing without seed data; otherwise the count query, and,
      when the count is not positive, the insert of the seed rows. */
  function SeedTrace(tableName: string, schema: Schema, seedData: Option<seq<Value>>, hash: string -> string,
                     respond: (nat, Statement) -> Result<QueryResult>, start: nat): Trace<bool>
  {
    if NoSeedData(seedData) then Trace([], Ok(false))
    else
      var count := SentAs(CountQuery(tableName), hash);
      match CountCheck(respond(start, count))
      case Err(e) => Trace([count], Err(e))
      case Ok(positive) =>
        if positive then Trace([count], Ok(false))
        else
          match BulkQuery(tableName, schema, seedData.value, None, hash)
          case Err(e) => Trace([count], Err(e))
          case Ok(None) => Trace([count], Ok(true))
          case Ok(Some(x)) =>
            var insert := SentAs(x, hash);
            Trace([count, insert], if respond(start + 1, insert).Err? then Err(respond(start + 1, insert).message) else Ok(true))
  }

  /** Seeding inserts only into a table whose count came back as zero: the
      insert, when sent, is the second statement and follows a count that is
      not positive, and a true result means the count was not positive. */
  lemma SeedOnlyEmpty(tableName: string, schema: Schema, seedData: Option<seq<Value>>, hash: string -> string,
                      respond: (nat, Statement) -> Result<QueryResult>, start: nat)
    ensures var t := SeedTrace(tableName, schema, seedData, hash, respond, start);
      && (NoSeedData(seedData) <==> t.sent == [])
      && (t.sent != [] ==> t.sent[0] == SentAs(CountQuery(tableName), hash))
      && (t.outcome == Ok(true) ==> CountCheck(respond(start, t.sent[0])) == Ok(false))
      && (|t.sent| == 2 ==>
            && CountCheck(respond(start, t.sent[0])) == Ok(false)
            && BulkQuery(tableName, schema, seedData.value, None, hash).Ok?
            && BulkQuery(tableName, schema, seedData.value, None, hash).value.Some?
            && t.sent[1] == SentAs(BulkQuery(tableName, schema, seedData.value, None, hash).value.value, hash))
  {
  }

  // ---------------------------------------------------------------------
  // The model
  // ---------------------------------------------------------------------

  class Model {
    const tableName: string
    /** The column definitions; `migrate` rewrites some of them in place. */
    var schema: Schema
    const seedData: Option<seq<Value>>

    constructor (tableName: string, schema: Schema, seedData: Option<seq<Value>>)
      ensures this.tableName == tableName && this.schema == schema && this.seedData == seedData
    {
      this.tableName := tableName;
      this.schema := schema;
      this.seedData := seedData;
    }

    /** `columns()` */
    function Columns(opts: ColumnOptions): seq<string>
      reads this
    {
      ColumnsOf(schema, opts)
    }

    /** `define()`: sorts the columns in one pass, then renders the DDL. */
    method Define() returns (d: Definition)
      ensures d == DefinitionOf(tableName, schema)
    {
      var groupKeys, groups, regular, foreign, primary := SortColumns(schema);
      var setColumns := Join(ColumnDefs(schema, regular), ", ");
      var setPrimaryKeys := if |primary| > 0 then ", PRIMARY KEY (" + Join(QuoteAll(primary), ", ") + ")" else "";
      var table := "CREATE TABLE IF NOT EXISTS " + Quote(tableName) + " (" + setColumns + setPrimaryKeys + ")";
      var columns := schema;
      var foreignKeys := seq(|foreign|, k requires 0 <= k < |foreign| =>
        ForeignKeyText(tableName, foreign[k], ColumnOf(columns, foreign[k])));
      var destroyTable := "DROP TABLE IF EXISTS " + Quote(tableName) + " CASCADE;";
      var constraints := seq(|groupKeys|, k requires 0 <= k < |groupKeys| =>
        ConstraintText(tableName, groupKeys[k], groups[groupKeys[k]]));
      d := Definition(table, foreignKeys, destroyTable, constraints);
    }

    /** `find` */
    method Find(args: SelectArgs, db: Executor) returns (r: Result<seq<Value>>)
      modifies db
      ensures db.releases == old(db.releases)
      ensures Issued(db, old(db.issued), FindQuery(tableName, args))
      ensures r == RowsOf(Returned(db, old(db.issued), FindQuery(tableName, args)))
    {
      var where := CreateConditions(args.where, 0);
      if where.Err? {
        return Err(where.message);
      }
      var sql := SelectLines(tableName, args, where.value.conditions);
      ghost var q := Query(None, Join(sql, "\n"), where.value.values);
      assert FindQuery(tableName, args) == Ok(q);
      var a := db.Prepared(None, Join(sql, "\n"), where.value.values);
      assert db.issued == old(db.issued) + [SentAs(q, db.hash)];
      r := RowsOf(a);
    }

    /** `findOne` */
    method FindOne(args: SelectArgs, db: Executor) returns (r: Result<Value>)
      modifies db
      ensures db.releases == old(db.releases)
      ensures Issued(db, old(db.issued), FindQuery(tableName, FindOneArgs(args)))
      ensures r == FirstRow(RowsOf(Returned(db, old(db.issued), FindQuery(tableName, FindOneArgs(args)))))
    {
      var rows := Find(FindOneArgs(args), db);
      r := FirstRow(rows);
    }

    /** `findById` */
    method FindById(id: Value, select: Option<Names>, db: Executor) returns (r: Result<Value>)
      modifies db
      ensures db.releases == old(db.releases)
      ensures Issued(db, old(db.issued), FindQuery(tableName, FindOneArgs(FindByIdArgs(id, select))))
      ensures r == FirstRow(RowsOf(Returned(db, old(db.issued), FindQuery(tableName, FindOneArgs(FindByIdArgs(id, select))))))
    {
      r := FindOne(FindByIdArgs(id, select), db);
    }

    /** `bulkCreate` */
    method BulkCreate(data: seq<Value>, returning: Option<Names>, db: Executor) returns (r: Result<seq<Value>>)
      modifies db
      ensures db.releases == old(db.releases)
      ensures var q := BulkQuery(tableName, schema, data, returning, db.hash);
        match q
        case Err(e) => r == Err(e) && db.issued == old(db.issued)
        case Ok(None) => r == Ok([]) && db.issued == old(db.issued)
        case Ok(Some(x)) =>
          db.issued == old(db.issued) + [SentAs(x, db.hash)] && r == RowsOf(db.Answer(|old(db.issued)|))
    {
      if |data| == 0 {
        return Ok([]);
      }
      var filtered := [];
      var j := 0;
      while j < |data|
        invariant 0 <= j <= |data|
        invariant filtered == [] <==> NoTruthy(data[..j])
      {
        if Truthy(data[j]) {
          filtered := filtered + [data[j]];
        }
        assert data[..j + 1] == data[..j] + [data[j]];
        j := j + 1;
      }
      assert data[..j] == data;
      if |filtered| == 0 {
        return Ok([]);
      }
      var ins := CreateInsert(data, returning, tableName, Columns(InsertOptions), db.hash);
      if ins.Err? {
        return Err(ins.message);
      }
      var sql := ["INSERT INTO\n\t" + Quote(tableName)];
      sql := sql + [ins.value.text];
      var a := db.Prepared(Some(ins.value.name), Join(sql, "\n"), ins.value.values);
      r := RowsOf(a);
    }

    /** `create`: inserts one row and returns the first returned row. */
    method Create(data: Value, returning: Option<Names>, db: Executor) returns (r: Result<Value>)
      modifies db
      ensures db.releases == old(db.releases)
      ensures var q := BulkQuery(tableName, schema, [data], returning, db.hash);
        match q
        case Err(e) => r == Err(e) && db.issued == old(db.issued)
        case Ok(None) => r == Ok(Undefined) && db.issued == old(db.issued)
        case Ok(Some(x)) =>
          db.issued == old(db.issued) + [SentAs(x, db.hash)] && r == FirstRow(RowsOf(db.Answer(|old(db.issued)|)))
    {
      var rows := BulkCreate([data], returning, db);
      r := FirstRow(rows);
    }

    /** `update` */
    method Update(changes: seq<Field>, where: Option<seq<Field>>, returning: Option<Names>, db: Executor)
      returns (r: Result<seq<Value>>)
      modifies db
      ensures db.releases == old(db.releases)
      ensures Issued(db, old(db.issued), UpdateQuery(tableName, schema, changes, where, returning))
      ensures r == RowsOf(Returned(db, old(db.issued), UpdateQuery(tableName, schema, changes, where, returning)))
    {
      var hasUpdatedAt := "updatedAt" in ColumnNames(schema);
      var setFields := SetFields(changes);
      var setValues := Vals(setFields);
      var condition := CreateConditions(where, |setValues|);
      if condition.Err? {
        return Err(condition.message);
      }
      var sql := AssembleUpdate(tableName, changes, hasUpdatedAt, condition.value.conditions, returning);
      ghost var q := Query(None, Join(sql, "\n"), setValues + condition.value.values);
      assert UpdateQuery(tableName, schema, changes, where, returning) == Ok(q);
      var a := db.Prepared(None, Join(sql, "\n"), setValues + condition.value.values);
      assert db.issued == old(db.issued) + [SentAs(q, db.hash)];
      r := RowsOf(a);
    }

    /** `deleteById`: whether exactly one row was deleted. */
    method DeleteById(id: Value, db: Executor) returns (r: Result<bool>)
      modifies db
      ensures db.releases == old(db.releases)
      ensures db.issued == old(db.issued) + [SentAs(Query(Some(tableName + "-deleteById"), DeleteByIdText(tableName), [id]), db.hash)]
      ensures db.Answer(|old(db.issued)|).Err? ==> r == Err(db.Answer(|old(db.issued)|).message)
      ensures db.Answer(|old(db.issued)|).Ok? ==> r == Ok(db.Answer(|old(db.issued)|).value.rowCount == 1)
    {
      var a := db.Prepared(Some(tableName + "-deleteById"), DeleteByIdText(tableName), [id]);
      if a.Err? {
        return Err(a.message);
      }
      r := Ok(a.value.rowCount == 1);
    }

    /** `delete` */
    method Delete(where: Option<seq<Field>>, returning: Option<Names>, db: Executor) returns (r: Result<seq<Value>>)
      modifies db
      ensures db.releases == old(db.releases)
      ensures Issued(db, old(db.issued), DeleteQuery(tableName, where, returning))
      ensures r == RowsOf(Returned(db, old(db.issued), DeleteQuery(tableName, where, returning)))
    {
      if where.None? || |where.value| == 0 {
        return Err(DeleteGuardError);
      }
      var sql := ["DELETE FROM\n\t" + tableName];
      var condition := CreateConditions(where, 0);
      if condition.Err? {
        return Err(condition.message);
      }
      sql := sql + [condition.value.conditions];
      sql := sql + [CreateReturning(returning)];
      assert sql == ["DELETE FROM\n\t" + tableName, condition.value.conditions, CreateReturning(returning)];
      var a := db.Prepared(None, Join(sql, "\n"), condition.value.values);
      r := RowsOf(a);
    }

    /** `seed`: inserts the seed rows into an empty table. The result says
        whether the rows were inserted. */
    method Seed(db: Executor) returns (r: Result<bool>)
      modifies db
      ensures db.releases == old(db.releases)
      ensures var t := SeedTrace(tableName, schema, seedData, db.hash, db.respond, |old(db.issued)|);
        db.issued == old(db.issued) + t.sent && r == t.outcome
    {
      if seedData.None? || |seedData.value| == 0 {
        return Ok(false);
      }
      var q := CountQuery(tableName);
      var a := db.Prepared(q.name, q.text, q.values);
      var check := CountCheck(a);
      if check.Err? {
        return Err(check.message);
      }
      if check.value {
        return Ok(false);
      }
      var rows := BulkCreate(seedData.value, None, db);
      if rows.Err? {
        return Err(rows.message);
      }
      r := Ok(true);
    }
  }
}
