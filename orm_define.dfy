/** The schema side of a model: which columns `columns()` lists, and the DDL
    that `define()` derives from a schema (the CREATE TABLE statement, one
    ALTER TABLE per foreign-key column, the DROP statement and one named
    UNIQUE constraint per column group). */
module OrmDefine {

  import opened Wrappers
  import opened JsString
  import opened JsValue
  import opened OrmTypes
  import opened OrmConditions
  import opened OrmBuilders

  // ---------------------------------------------------------------------
  // Selecting columns
  // ---------------------------------------------------------------------

  /** The names of the first `n` columns whose definition satisfies `p`, in
      declaration order. */
  function Select(schema: Schema, p: Column -> bool, n: nat): (r: seq<string>)
    requires n <= |schema|
    ensures |r| <= n
  {
    if n == 0 then []
    else Select(schema, p, n - 1) + (if p(schema[n - 1].column) then [schema[n - 1].name] else [])
  }

  /** A name is selected exactly when one of the first `n` columns carries it
      and satisfies `p`. */
  lemma {:induction false} SelectMembers(schema: Schema, p: Column -> bool, n: nat)
    requires n <= |schema|
    ensures forall x :: x in Select(schema, p, n) <==>
      exists i :: 0 <= i < n && schema[i].name == x && p(schema[i].column)
  {
    if n > 0 {
      SelectMembers(schema, p, n - 1);
    }
  }

  /** `schema[name]`: the definition of the first column with that name. */
  function ColumnOf(schema: Schema, name: string): Column
  {
    if schema == [] then NoColumnFields
    else if schema[0].name == name then schema[0].column
    else ColumnOf(schema[1..], name)
  }

  /** In a schema whose names are distinct, a column is found under its name. */
  lemma {:induction false} ColumnOfAt(schema: Schema, i: nat)
    requires i < |schema|
    requires Distinct(ColumnNames(schema))
    ensures ColumnOf(schema, schema[i].name) == schema[i].column
  {
    if i > 0 {
      assert ColumnNames(schema)[0] != ColumnNames(schema)[i];
      assert ColumnNames(schema[1..]) == ColumnNames(schema)[1..];
      ColumnOfAt(schema[1..], i - 1);
    }
  }

  /** The flags of `columns()`; an empty prefix counts as none. */
  datatype ColumnOptions = ColumnOptions(withDefault: bool, fk: bool, prefix: string, raw: bool, pk: bool)

  /** The options `bulkCreate` asks for: foreign keys included, bare names. */
  const InsertOptions := ColumnOptions(false, true, "", true, false)

  /** A column survives the filters unless it is a foreign key, a primary key
      or has a default value and the matching flag is not set. */
  predicate Kept(c: Column, opts: ColumnOptions)
  {
    && (opts.fk || c.fk.None?)
    && (opts.pk || !IsTrue(c.pk))
    && (opts.withDefault || c.defaultValue.None?)
  }

  function KeptNames(schema: Schema, opts: ColumnOptions): seq<string>
  {
    Select(schema, (c: Column) => Kept(c, opts), |schema|)
  }

  /** `columns()`: the surviving names, bare, quoted, or quoted and prefixed. */
  function ColumnsOf(schema: Schema, opts: ColumnOptions): (r: seq<string>)
    ensures |r| == |KeptNames(schema, opts)|
    ensures forall i :: 0 <= i < |r| ==>
      (r[i] == if opts.raw then KeptNames(schema, opts)[i]
               else if opts.prefix != "" then Quote(opts.prefix) + "." + Quote(KeptNames(schema, opts)[i])
               else Quote(KeptNames(schema, opts)[i]))
  {
    var cols := KeptNames(schema, opts);
    if opts.raw then cols
    else
      seq(|cols|, i requires 0 <= i < |cols| =>
        if opts.prefix != "" then Quote(opts.prefix) + "." + Quote(cols[i]) else Quote(cols[i]))
  }

  /** The listed columns are exactly those that survive the filters, and
      they keep their declaration order. */
  lemma ColumnsMembers(schema: Schema, opts: ColumnOptions)
    ensures forall x :: x in KeptNames(schema, opts) <==>
      exists i :: 0 <= i < |schema| && schema[i].name == x && Kept(schema[i].column, opts)
  {
    SelectMembers(schema, (c: Column) => Kept(c, opts), |schema|);
  }

  /** An INSERT lists exactly the columns that are neither primary keys nor
      defaulted; foreign-key columns are among them. */
  lemma InsertedColumns(schema: Schema)
    ensures ColumnsOf(schema, InsertOptions) == KeptNames(schema, InsertOptions)
    ensures forall x :: x in ColumnsOf(schema, InsertOptions) <==>
      exists i :: 0 <= i < |schema| && schema[i].name == x &&
        !IsTrue(schema[i].column.pk) && schema[i].column.defaultValue.None?
  {
    ColumnsMembers(schema, InsertOptions);
  }

  // ---------------------------------------------------------------------
  // Sorting the columns of define()
  // ---------------------------------------------------------------------

  predicate IsForeign(c: Column)
  {
    c.fk.Some?
  }

  predicate IsRegular(c: Column)
  {
    c.fk.None?
  }

  predicate IsPrimary(c: Column)
  {
    c.fk.None? && IsTrue(c.pk)
  }

  /** Every column is either a foreign key or a regular column, never both;
      primary keys that are not foreign keys are also regular columns. */
  lemma {:induction false} PartitionCount(schema: Schema, n: nat)
    requires n <= |schema|
    ensures |Select(schema, IsRegular, n)| + |Select(schema, IsForeign, n)| == n
  {
    if n > 0 {
      PartitionCount(schema, n - 1);
    }
  }

  /** In a schema with distinct names, each column lands in exactly one of
      the CREATE TABLE body and the foreign-key statements, and the primary
      keys are a part of the CREATE TABLE body. */
  lemma DefinePartition(schema: Schema)
    requires Distinct(ColumnNames(schema))
    ensures |Select(schema, IsRegular, |schema|)| + |Select(schema, IsForeign, |schema|)| == |schema|
    ensures forall i :: 0 <= i < |schema| ==>
      (schema[i].name in Select(schema, IsRegular, |schema|) <==> schema[i].column.fk.None?) &&
      (schema[i].name in Select(schema, IsForeign, |schema|) <==> schema[i].column.fk.Some?)
    ensures forall x :: x in Select(schema, IsPrimary, |schema|) ==> x in Select(schema, IsRegular, |schema|)
  {
    PartitionCount(schema, |schema|);
    SelectMembers(schema, IsRegular, |schema|);
    SelectMembers(schema, IsForeign, |schema|);
    SelectMembers(schema, IsPrimary, |schema|);
    forall i, j | 0 <= i < j < |schema|
      ensures schema[i].name != schema[j].name
    {
      assert ColumnNames(schema)[i] != ColumnNames(schema)[j];
    }
  }

  /** The unique-group names of the first `n` columns, each once, in order of
      first appearance (the key order of the `uniqueGroups` map). */
  function GroupKeys(schema: Schema, n: nat): (r: seq<string>)
    requires n <= |schema|
  {
    if n == 0 then []
    else
      var prev := GroupKeys(schema, n - 1);
      var g := schema[n - 1].column.uniqueGroup;
      if g.Some? && g.value !in prev then prev + [g.value] else prev
  }

  /** Each group is listed once, and exactly the groups some column names are listed. */
  lemma {:induction false} GroupKeysSpec(schema: Schema, n: nat)
    requires n <= |schema|
    ensures Distinct(GroupKeys(schema, n))
    ensures forall g :: g in GroupKeys(schema, n) <==>
      exists i :: 0 <= i < n && schema[i].column.uniqueGroup == Some(g)
  {
    if n > 0 {
      GroupKeysSpec(schema, n - 1);
    }
  }

  /** The columns among the first `n` that belong to group `g`, in order. */
  function Members(schema: Schema, g: string, n: nat): (r: seq<string>)
    requires n <= |schema|
  {
    if n == 0 then []
    else Members(schema, g, n - 1) + (if schema[n - 1].column.uniqueGroup == Some(g) then [schema[n - 1].name] else [])
  }

  /** One step of the group bookkeeping: column `n` joins its group, which
      is opened when it is new. */
  method AddToGroup(schema: Schema, n: nat, groupKeys: seq<string>, groups: map<string, seq<string>>)
    returns (groupKeys': seq<string>, groups': map<string, seq<string>>)
    requires n < |schema| && groupKeys == GroupKeys(schema, n)
    requires forall g :: g in groups <==> g in groupKeys
    requires forall g :: g in groups ==> groups[g] == Members(schema, g, n)
    requires forall g :: g !in groups ==> Members(schema, g, n) == []
    ensures groupKeys' == GroupKeys(schema, n + 1)
    ensures forall g :: g in groups' <==> g in groupKeys'
    ensures forall g :: g in groups' ==> groups'[g] == Members(schema, g, n + 1)
    ensures forall g :: g !in groups' ==> Members(schema, g, n + 1) == []
  {
    groupKeys', groups' := groupKeys, groups;
    var field := schema[n].name;
    var c := schema[n].column;
    forall g
      ensures Members(schema, g, n + 1) == Members(schema, g, n) + (if c.uniqueGroup == Some(g) then [field] else [])
    {
    }
    if c.uniqueGroup.Some? {
      var g := c.uniqueGroup.value;
      if g !in groups {
        groups' := groups[g := [field]];
        groupKeys' := groupKeys + [g];
        assert Members(schema, g, n + 1) == [] + [field];
      } else {
        groups' := groups[g := groups[g] + [field]];
      }
    } else {
      assert GroupKeys(schema, n + 1) == groupKeys;
    }
  }

  /** One step of the sorting of `define()`: column `n` goes to the foreign
      keys, or to the regular columns and, when it is a primary key, to the
      primary keys as well. */
  method SortColumn(schema: Schema, n: nat, regular: seq<string>, foreign: seq<string>, primary: seq<string>)
    returns (regular': seq<string>, foreign': seq<string>, primary': seq<string>)
    requires n < |schema|
    requires regular == Select(schema, IsRegular, n)
    requires foreign == Select(schema, IsForeign, n)
    requires primary == Select(schema, IsPrimary, n)
    ensures regular' == Select(schema, IsRegular, n + 1)
    ensures foreign' == Select(schema, IsForeign, n + 1)
    ensures primary' == Select(schema, IsPrimary, n + 1)
  {
    regular', foreign', primary' := regular, foreign, primary;
    var field := schema[n].name;
    var c := schema[n].column;
    assert IsRegular(c) == c.fk.None? && IsForeign(c) == c.fk.Some? && IsPrimary(c) == (c.fk.None? && IsTrue(c.pk));
    if c.fk.Some? {
      foreign' := foreign + [field];
    } else {
      if IsTrue(c.pk) {
        primary' := primary + [field];
      }
      regular' := regular + [field];
    }
  }

  /** The `reduce` of `define()`: one pass over the columns that records
      each unique group (in order of first appearance, with its columns) and
      sorts the columns into regular, foreign-key and primary-key lists. */
  method SortColumns(schema: Schema)
    returns (groupKeys: seq<string>, groups: map<string, seq<string>>,
             regular: seq<string>, foreign: seq<string>, primary: seq<string>)
    ensures regular == Select(schema, IsRegular, |schema|)
    ensures foreign == Select(schema, IsForeign, |schema|)
    ensures primary == Select(schema, IsPrimary, |schema|)
    ensures groupKeys == GroupKeys(schema, |schema|)
    ensures forall g :: g in groups <==> g in groupKeys
    ensures forall g :: g in groups ==> groups[g] == Members(schema, g, |schema|)
  {
    groupKeys, groups, regular, foreign, primary := [], map[], [], [], [];
    var i := 0;
    while i < |schema|
      invariant 0 <= i <= |schema|
      invariant regular == Select(schema, IsRegular, i)
      invariant foreign == Select(schema, IsForeign, i)
      invariant primary == Select(schema, IsPrimary, i)
      invariant groupKeys == GroupKeys(schema, i)
      invariant forall g :: g in groups <==> g in groupKeys
      invariant forall g :: g in groups ==> groups[g] == Members(schema, g, i)
      invariant forall g :: g !in groups ==> Members(schema, g, i) == []
    {
      groupKeys, groups := AddToGroup(schema, i, groupKeys, groups);
      regular, foreign, primary := SortColumn(schema, i, regular, foreign, primary);
      i := i + 1;
    }
  }

  // ---------------------------------------------------------------------
  // DDL text
  // ---------------------------------------------------------------------

  /** A template literal prints a missing type as `undefined`. */
  function TypeText(t: Option<string>): string
  {
    if t.Some? then t.value else "undefined"
  }

  /** The optional words after a column's type: UNIQUE, NOT NULL, DEFAULT. */
  function Flags(c: Column): seq<string>
  {
    (if IsTrue(c.unique) then ["UNIQUE"] else [])
    + (if IsTrue(c.required) then ["NOT NULL"] else [])
    + (if c.defaultValue.Some? then ["DEFAULT " + c.defaultValue.value] else [])
  }

  /** A column of the CREATE TABLE body. */
  function ColumnDef(name: string, c: Column): string
  {
    Join([Quote(name) + " " + TypeText(c.sqlType)] + Flags(c), " ")
  }

  /** Words joined by spaces, one after another. */
  /** Appending a word that may be absent extends the joined text by a
      space and the word, or leaves it as it is. */
  lemma SpaceSnocIf(parts: seq<string>, present: bool, p: string)
    requires parts != []
    ensures Join(parts + (if present then [p] else []), " ") == Join(parts, " ") + (if present then " " + p else "")
  {
    if present {
      JoinSnoc(parts, p, " ");
      assert Join(parts, " ") + " " + p == Join(parts, " ") + (" " + p);
    } else {
      assert parts + [] == parts;
    }
  }

  /** The column text is the quoted name and the type, then UNIQUE, NOT NULL
      and DEFAULT in that order, each only when set. */
  lemma ColumnDefText(name: string, c: Column)
    ensures ColumnDef(name, c) == Quote(name) + " " + TypeText(c.sqlType)
      + (if IsTrue(c.unique) then " UNIQUE" else "")
      + (if IsTrue(c.required) then " NOT NULL" else "")
      + (if c.defaultValue.Some? then " DEFAULT " + c.defaultValue.value else "")
  {
    var head := Quote(name) + " " + TypeText(c.sqlType);
    var u := if IsTrue(c.unique) then ["UNIQUE"] else [];
    var r := if IsTrue(c.required) then ["NOT NULL"] else [];
    var d := if c.defaultValue.Some? then ["DEFAULT " + c.defaultValue.value] else [];
    var s1 := [head] + u;
    var s2 := s1 + r;
    var s3 := s2 + d;
    assert [head] + Flags(c) == s3;
    SpaceSnocIf([head], IsTrue(c.unique), "UNIQUE");
    SpaceSnocIf(s1, IsTrue(c.required), "NOT NULL");
    SpaceSnocIf(s2, c.defaultValue.Some?, if c.defaultValue.Some? then "DEFAULT " + c.defaultValue.value else "");
    assert " " + "UNIQUE" == " UNIQUE" && " " + "NOT NULL" == " NOT NULL";
    assert c.defaultValue.Some? ==> " " + ("DEFAULT " + c.defaultValue.value) == " DEFAULT " + c.defaultValue.value;
  }

  function ColumnDefs(schema: Schema, names: seq<string>): (r: seq<string>)
    ensures |r| == |names|
    ensures forall i :: 0 <= i < |names| ==> r[i] == ColumnDef(names[i], ColumnOf(schema, names[i]))
  {
    seq(|names|, i requires 0 <= i < |names| => ColumnDef(names[i], ColumnOf(schema, names[i])))
  }

  /** `, PRIMARY KEY (...)` when there is a primary key, otherwise nothing. */
  function PrimaryKeyText(primary: seq<string>): (r: string)
    ensures r == "" <==> primary == []
  {
    if primary == [] then "" else ", PRIMARY KEY (" + Join(QuoteAll(primary), ", ") + ")"
  }

  function TableText(tableName: string, schema: Schema): string
  {
    "CREATE TABLE IF NOT EXISTS " + Quote(tableName) + " ("
      + Join(ColumnDefs(schema, Select(schema, IsRegular, |schema|)), ", ")
      + PrimaryKeyText(Select(schema, IsPrimary, |schema|)) + ")"
  }

  /** The REFERENCES part of a foreign-key column: the referenced column
      defaults to `id`; ON UPDATE comes before ON DELETE, each only when set. */
  function References(fk: ForeignKey): seq<string>
  {
    ["REFERENCES " + Quote(fk.table) + " (" + Quote(if fk.column.Some? then fk.column.value else "id") + ")"]
    + (if fk.onUpdate.Some? then ["ON UPDATE " + ActionText(fk.onUpdate.value)] else [])
    + (if fk.onDelete.Some? then ["ON DELETE " + ActionText(fk.onDelete.value)] else [])
  }

  /** The statement that adds a foreign-key column; its type defaults to INTEGER. */
  function ForeignKeyText(tableName: string, name: string, c: Column): string
  {
    Join(["ALTER TABLE " + Quote(tableName),
          "ADD COLUMN IF NOT EXISTS " + Quote(name) + " " + (if c.sqlType.Some? then c.sqlType.value else "INTEGER")]
         + Flags(c) + (if c.fk.Some? then References(c.fk.value) else []), " ")
  }

  /** Leaving out the type of a foreign-key column means INTEGER, and leaving
      out the referenced column means `id`. */
  lemma ForeignKeyDefaults(tableName: string, name: string, c: Column)
    requires c.fk.Some?
    ensures c.sqlType.None? ==>
      ForeignKeyText(tableName, name, c) == ForeignKeyText(tableName, name, c.(sqlType := Some("INTEGER")))
    ensures c.fk.value.column.None? ==>
      ForeignKeyText(tableName, name, c) == ForeignKeyText(tableName, name, c.(fk := Some(c.fk.value.(column := Some("id")))))
  {
  }

  function ConstraintText(tableName: string, group: string, fields: seq<string>): string
  {
    "ALTER TABLE " + Quote(tableName) + " ADD CONSTRAINT " + Quote(tableName + "_" + group)
      + " UNIQUE (" + Join(QuoteAll(fields), ", ") + ")"
  }

  /** What `define()` returns. */
  datatype Definition = Definition(
    table: string,
    foreignKeys: seq<string>,
    destroyTable: string,
    addUniqueGroupConstraints: seq<string>)

  /** One ALTER TABLE per foreign-key column, in column order. */
  function ForeignKeyTexts(tableName: string, schema: Schema, foreign: seq<string>): (r: seq<string>)
    ensures |r| == |foreign|
    ensures forall i :: 0 <= i < |foreign| ==> r[i] == ForeignKeyText(tableName, foreign[i], ColumnOf(schema, foreign[i]))
  {
    seq(|foreign|, i requires 0 <= i < |foreign| => ForeignKeyText(tableName, foreign[i], ColumnOf(schema, foreign[i])))
  }

  /** One ADD CONSTRAINT per unique group, in order of first appearance. */
  function ConstraintTexts(tableName: string, schema: Schema, groups: seq<string>): (r: seq<string>)
    ensures |r| == |groups|
    ensures forall i :: 0 <= i < |groups| ==> r[i] == ConstraintText(tableName, groups[i], Members(schema, groups[i], |schema|))
  {
    seq(|groups|, i requires 0 <= i < |groups| => ConstraintText(tableName, groups[i], Members(schema, groups[i], |schema|)))
  }

  function DefinitionOf(tableName: string, schema: Schema): Definition
  {
    Definition(
      TableText(tableName, schema),
      ForeignKeyTexts(tableName, schema, Select(schema, IsForeign, |schema|)),
      "DROP TABLE IF EXISTS " + Quote(tableName) + " CASCADE;",
      ConstraintTexts(tableName, schema, GroupKeys(schema, |schema|)))
  }

  /** The PRIMARY KEY clause appears exactly when some column that is not a
      foreign key is marked as primary key. */
  lemma PrimaryKeyClause(schema: Schema)
    ensures PrimaryKeyText(Select(schema, IsPrimary, |schema|)) != "" <==>
      exists i :: 0 <= i < |schema| && schema[i].column.fk.None? && IsTrue(schema[i].column.pk)
  {
    var primary := Select(schema, IsPrimary, |schema|);
    SelectMembers(schema, IsPrimary, |schema|);
    if primary != [] {
      assert primary[0] in primary;
    } else {
      forall i | 0 <= i < |schema|
        ensures !IsPrimary(schema[i].column)
      {
        assert schema[i].name !in primary;
      }
    }
  }

  /** In a schema with distinct names, every foreign-key column gets its own
      ALTER TABLE statement, and every other column is defined in the body of
      CREATE TABLE. */
  lemma EveryColumnDefined(tableName: string, schema: Schema, i: nat)
    requires i < |schema|
    requires Distinct(ColumnNames(schema))
    ensures var d := DefinitionOf(tableName, schema);
      schema[i].column.fk.Some? ==> ForeignKeyText(tableName, schema[i].name, schema[i].column) in d.foreignKeys
    ensures schema[i].column.fk.None? ==>
      ColumnDef(schema[i].name, schema[i].column) in ColumnDefs(schema, Select(schema, IsRegular, |schema|))
  {
    ColumnOfAt(schema, i);
    var d := DefinitionOf(tableName, schema);
    if schema[i].column.fk.Some? {
      var foreign := Select(schema, IsForeign, |schema|);
      SelectMembers(schema, IsForeign, |schema|);
      assert schema[i].name in foreign;
      var k :| 0 <= k < |foreign| && foreign[k] == schema[i].name;
      assert d.foreignKeys == ForeignKeyTexts(tableName, schema, foreign);
      assert d.foreignKeys[k] == ForeignKeyText(tableName, foreign[k], ColumnOf(schema, foreign[k]));
    } else {
      var regular := Select(schema, IsRegular, |schema|);
      SelectMembers(schema, IsRegular, |schema|);
      assert schema[i].name in regular;
      var k :| 0 <= k < |regular| && regular[k] == schema[i].name;
      assert ColumnDefs(schema, regular)[k] == ColumnDef(schema[i].name, schema[i].column);
    }
  }

  /** One UNIQUE constraint per distinct group name, named after the table and
      the group, listing the group's columns in declaration order; a column
      without a group is in no constraint. */
  lemma GroupConstraints(tableName: string, schema: Schema)
    ensures var d := DefinitionOf(tableName, schema);
      var groups := GroupKeys(schema, |schema|);
      && |d.addUniqueGroupConstraints| == |groups|
      && Distinct(groups)
      && (forall g :: g in groups <==> exists i :: 0 <= i < |schema| && schema[i].column.uniqueGroup == Some(g))
      && (forall k :: 0 <= k < |groups| ==>
            d.addUniqueGroupConstraints[k] == ConstraintText(tableName, groups[k], Members(schema, groups[k], |schema|)))
  {
    GroupKeysSpec(schema, |schema|);
  }
}
