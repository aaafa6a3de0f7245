/** The database object: it owns the models, builds the whole schema from
    scratch (`init`), runs a callback inside a transaction (`transact`) and
    compares the models with the live catalog (`migrate`).

    The catalog rows `migrate` reads are parameters here; what the server
    answers to `init` and `transact` comes from the connection's `respond`. */
module OrmDb {

  import opened Wrappers
  import opened JsString
  import opened JsValue
  import opened OrmTypes
  import opened OrmDefine
  import opened OrmDiff
  import opened OrmExecutor
  import opened OrmModel
  import opened OrmRun

  // ---------------------------------------------------------------------
  // The catalog as `migrate` reads it
  // ---------------------------------------------------------------------

  /** `onActionType`: the one-letter codes of `pg_constraint.confupdtype`
      and `confdeltype`. `a` (no action) and any other letter name no action. */
  function OnActionType(code: char): (r: Option<Action>)
    ensures r.Some? <==> code in "rcnd"
  {
    match code
    case 'r' => Some(Restrict)
    case 'c' => Some(Cascade)
    case 'n' => Some(SetNull)
    case 'd' => Some(SetDefault)
    case _ => None
  }

  /** The code the catalog stores for an action. */
  function ActionCode(a: Action): char
  {
    match a
    case Restrict => 'r'
    case Cascade => 'c'
    case SetNull => 'n'
    case SetDefault => 'd'
  }

  /** Every action has exactly one code. */
  lemma ActionCodes(a: Action, code: char)
    ensures OnActionType(ActionCode(a)) == Some(a)
    ensures OnActionType(code) == Some(a) ==> code == ActionCode(a)
  {
  }

  /** `IConstraintDef`: one row of the constraint query, one per constrained
      column (`kind` is `p`, `f` or `u`). */
  datatype ConstraintRow = ConstraintRow(
    kind: char,
    name: string,
    tableName: string,
    tableReferences: Option<string>,
    columnName: Option<string>,
    columnReferences: Option<string>,
    onUpdate: char,
    onDelete: char)

  /** `IColumnDef`: one row of `information_schema.COLUMNS`, with the data
      type and the type name already upper-cased by the query. */
  datatype ColumnRow = ColumnRow(
    columnName: string,
    columnDefault: Option<string>,
    characterMaximumLength: Option<int>,
    numericPrecision: Option<int>,
    numericScale: Option<int>,
    isNullable: string,
    dataType: string,
    udtName: string)

  /** A catalog number as a template literal prints it (`null` when absent). */
  function NumberText(n: Option<int>): string
  {
    if n.None? then "null" else IntToString(n.value)
  }

  /** `getColumnType`: the type `define` would have written for the column. */
  function ColumnType(c: ColumnRow, pkDef: Option<ConstraintRow>): (r: string)
    ensures pkDef.Some? && pkDef.value.kind == 'p' && c.dataType == "INTEGER" ==> r == "SERIAL"
    ensures r == "SERIAL" ==>
      || (pkDef.Some? && pkDef.value.kind == 'p' && c.dataType == "INTEGER")
      || (c.dataType == "USER-DEFINED" && c.udtName == "SERIAL")
      || c.dataType == "SERIAL"
    ensures !(pkDef.Some? && pkDef.value.kind == 'p' && c.dataType == "INTEGER") ==>
      && (c.dataType == "USER-DEFINED" ==> r == c.udtName)
      && (c.dataType == "CHARACTER VARYING" ==> r == "VARCHAR(" + NumberText(c.characterMaximumLength) + ")")
      && (c.dataType == "NUMERIC" ==> r == "NUMERIC(" + NumberText(c.numericPrecision) + ", " + NumberText(c.numericScale) + ")")
      && (c.dataType !in {"USER-DEFINED", "CHARACTER VARYING", "NUMERIC"} ==> r == c.dataType)
  {
    if pkDef.Some? && pkDef.value.kind == 'p' && c.dataType == "INTEGER" then "SERIAL"
    else if c.dataType == "USER-DEFINED" then c.udtName
    else if c.dataType == "CHARACTER VARYING" then "VARCHAR(" + NumberText(c.characterMaximumLength) + ")"
    else if c.dataType == "NUMERIC" then "NUMERIC(" + NumberText(c.numericPrecision) + ", " + NumberText(c.numericScale) + ")"
    else c.dataType
  }

  /** `constraints.filter(c => c.table_name === t)` followed by
      `.filter(c => c.type === kind)`: the rows of one kind for one table,
      in catalog order. */
  function OfKind(rows: seq<ConstraintRow>, tableName: string, kind: char): (r: seq<ConstraintRow>)
    ensures forall c :: c in r <==> c in rows && c.tableName == tableName && c.kind == kind
  {
    if rows == [] then []
    else
      (if rows[0].tableName == tableName && rows[0].kind == kind then [rows[0]] else [])
      + OfKind(rows[1..], tableName, kind)
  }

  /** `rows.find(c => c.column_name === name)`: the first row about the column. */
  function FindConstraint(rows: seq<ConstraintRow>, name: string): (r: Option<ConstraintRow>)
    ensures r.None? <==> forall i :: 0 <= i < |rows| ==> rows[i].columnName != Some(name)
    ensures r.Some? ==> exists i :: (0 <= i < |rows| && rows[i] == r.value && rows[i].columnName == Some(name)
      && forall j :: 0 <= j < i ==> rows[j].columnName != Some(name))
  {
    if rows == [] then None
    else if rows[0].columnName == Some(name) then Some(rows[0])
    else
      var r := FindConstraint(rows[1..], name);
      assert forall i :: 1 <= i < |rows| ==> rows[i] == rows[1..][i - 1];
      r
  }

  // ---------------------------------------------------------------------
  // Writing optional properties
  // ---------------------------------------------------------------------

  /** `if (v) o[k] = v`: writes the property when there is one to write. */
  function PutIf(fs: seq<Field>, k: string, v: Option<Value>): seq<Field>
  {
    if v.Some? then Put(fs, k, v.value) else fs
  }

  /** The value read back, or `undefined`. */
  function OrUndefined(v: Option<Value>): Value
  {
    if v.Some? then v.value else Undefined
  }

  /** Reading after an optional write. */
  lemma GetPutIf(fs: seq<Field>, k: string, v: Option<Value>, other: string)
    ensures Get(PutIf(fs, k, v), other) == if other == k && v.Some? then v.value else Get(fs, other)
  {
    if v.Some? && other != k {
      PutOther(fs, k, v.value, other);
    }
  }

  /** Whether a key is there after an optional write. */
  lemma KeyPutIf(fs: seq<Field>, k: string, v: Option<Value>, key: string)
    ensures key in Keys(PutIf(fs, k, v)) <==> key in Keys(fs) || (key == k && v.Some?)
  {
  }

  /** An optional write keeps the keys distinct. */
  lemma DistinctPutIf(fs: seq<Field>, k: string, v: Option<Value>)
    requires Distinct(Keys(fs))
    ensures Distinct(Keys(PutIf(fs, k, v)))
  {
    if v.Some? {
      DistinctPut(fs, k, v.value);
    }
  }

  function OptStr(s: Option<string>): Option<Value>
  {
    if s.Some? then Some(Str(s.value)) else None
  }

  function OptFlag(b: Option<bool>): Option<Value>
  {
    if b.Some? then Some(Bool(b.value)) else None
  }

  function OptAction(a: Option<Action>): Option<Value>
  {
    if a.Some? then Some(Str(ActionText(a.value))) else None
  }

  // ---------------------------------------------------------------------
  // A model column as a JavaScript object
  // ---------------------------------------------------------------------

  /** An `IForeignKey` object, its properties in declaration order. */
  function FkObject(fk: ForeignKey): seq<Field>
  {
    var o := PutIf([], "table", Some(Str(fk.table)));
    var o := PutIf(o, "column", OptStr(fk.column));
    var o := PutIf(o, "onUpdate", OptAction(fk.onUpdate));
    PutIf(o, "onDelete", OptAction(fk.onDelete))
  }

  /** What reading property `k` of a foreign-key object gives. */
  function FkProperty(fk: ForeignKey, k: string): Value
  {
    if k == "table" then Str(fk.table)
    else if k == "column" then OrUndefined(OptStr(fk.column))
    else if k == "onUpdate" then OrUndefined(OptAction(fk.onUpdate))
    else if k == "onDelete" then OrUndefined(OptAction(fk.onDelete))
    else Undefined
  }

  /** The object holds exactly the foreign key's properties, once each. */
  lemma FkObjectReads(fk: ForeignKey, k: string)
    ensures Distinct(Keys(FkObject(fk)))
    ensures Get(FkObject(fk), k) == FkProperty(fk, k)
    ensures "column" in Keys(FkObject(fk)) <==> fk.column.Some?
  {
    var o0: seq<Field> := [];
    var o1 := PutIf(o0, "table", Some(Str(fk.table)));
    var o2 := PutIf(o1, "column", OptStr(fk.column));
    var o3 := PutIf(o2, "onUpdate", OptAction(fk.onUpdate));
    GetPutIf(o0, "table", Some(Str(fk.table)), k);
    GetPutIf(o1, "column", OptStr(fk.column), k);
    GetPutIf(o2, "onUpdate", OptAction(fk.onUpdate), k);
    GetPutIf(o3, "onDelete", OptAction(fk.onDelete), k);
    DistinctPutIf(o0, "table", Some(Str(fk.table)));
    DistinctPutIf(o1, "column", OptStr(fk.column));
    DistinctPutIf(o2, "onUpdate", OptAction(fk.onUpdate));
    DistinctPutIf(o3, "onDelete", OptAction(fk.onDelete));
    KeyPutIf(o0, "table", Some(Str(fk.table)), "column");
    KeyPutIf(o1, "column", OptStr(fk.column), "column");
    KeyPutIf(o2, "onUpdate", OptAction(fk.onUpdate), "column");
    KeyPutIf(o3, "onDelete", OptAction(fk.onDelete), "column");
  }

  /** An `IModelColumn` object, its properties in declaration order. */
  function ColumnObject(c: Column): seq<Field>
  {
    var o := PutIf([], "type", OptStr(c.sqlType));
    var o := PutIf(o, "defaultValue", OptStr(c.defaultValue));
    var o := PutIf(o, "required", OptFlag(c.required));
    var o := PutIf(o, "unique", OptFlag(c.unique));
    var o := PutIf(o, "uniqueGroup", OptStr(c.uniqueGroup));
    var o := PutIf(o, "pk", OptFlag(c.pk));
    PutIf(o, "fk", if c.fk.Some? then Some(Obj(FkObject(c.fk.value))) else None)
  }

  /** What reading property `k` of a column object gives. */
  function ColumnProperty(c: Column, k: string): Value
  {
    if k == "type" then OrUndefined(OptStr(c.sqlType))
    else if k == "defaultValue" then OrUndefined(OptStr(c.defaultValue))
    else if k == "required" then OrUndefined(OptFlag(c.required))
    else if k == "unique" then OrUndefined(OptFlag(c.unique))
    else if k == "uniqueGroup" then OrUndefined(OptStr(c.uniqueGroup))
    else if k == "pk" then OrUndefined(OptFlag(c.pk))
    else if k == "fk" then (if c.fk.Some? then Obj(FkObject(c.fk.value)) else Undefined)
    else Undefined
  }

  /** The object holds exactly the column's properties, once each. */
  lemma ColumnObjectReads(c: Column, k: string)
    ensures Get(ColumnObject(c), k) == ColumnProperty(c, k)
  {
    var o0: seq<Field> := [];
    var o1 := PutIf(o0, "type", OptStr(c.sqlType));
    var o2 := PutIf(o1, "defaultValue", OptStr(c.defaultValue));
    var o3 := PutIf(o2, "required", OptFlag(c.required));
    var o4 := PutIf(o3, "unique", OptFlag(c.unique));
    var o5 := PutIf(o4, "uniqueGroup", OptStr(c.uniqueGroup));
    var o6 := PutIf(o5, "pk", OptFlag(c.pk));
    GetPutIf(o0, "type", OptStr(c.sqlType), k);
    GetPutIf(o1, "defaultValue", OptStr(c.defaultValue), k);
    GetPutIf(o2, "required", OptFlag(c.required), k);
    GetPutIf(o3, "unique", OptFlag(c.unique), k);
    GetPutIf(o4, "uniqueGroup", OptStr(c.uniqueGroup), k);
    GetPutIf(o5, "pk", OptFlag(c.pk), k);
    GetPutIf(o6, "fk", if c.fk.Some? then Some(Obj(FkObject(c.fk.value))) else None, k);
  }

  /** Its keys are distinct. */
  lemma ColumnObjectDistinct(c: Column)
    ensures Distinct(Keys(ColumnObject(c)))
  {
    var o0: seq<Field> := [];
    var o1 := PutIf(o0, "type", OptStr(c.sqlType));
    var o2 := PutIf(o1, "defaultValue", OptStr(c.defaultValue));
    var o3 := PutIf(o2, "required", OptFlag(c.required));
    var o4 := PutIf(o3, "unique", OptFlag(c.unique));
    var o5 := PutIf(o4, "uniqueGroup", OptStr(c.uniqueGroup));
    var o6 := PutIf(o5, "pk", OptFlag(c.pk));
    DistinctPutIf(o0, "type", OptStr(c.sqlType));
    DistinctPutIf(o1, "defaultValue", OptStr(c.defaultValue));
    DistinctPutIf(o2, "required", OptFlag(c.required));
    DistinctPutIf(o3, "unique", OptFlag(c.unique));
    DistinctPutIf(o4, "uniqueGroup", OptStr(c.uniqueGroup));
    DistinctPutIf(o5, "pk", OptFlag(c.pk));
    DistinctPutIf(o6, "fk", if c.fk.Some? then Some(Obj(FkObject(c.fk.value))) else None);
  }

  /** `type` is among its keys exactly when the column declares a type. */
  lemma ColumnObjectHasType(c: Column)
    ensures "type" in Keys(ColumnObject(c)) <==> c.sqlType.Some?
  {
    var o0: seq<Field> := [];
    var o1 := PutIf(o0, "type", OptStr(c.sqlType));
    var o2 := PutIf(o1, "defaultValue", OptStr(c.defaultValue));
    var o3 := PutIf(o2, "required", OptFlag(c.required));
    var o4 := PutIf(o3, "unique", OptFlag(c.unique));
    var o5 := PutIf(o4, "uniqueGroup", OptStr(c.uniqueGroup));
    var o6 := PutIf(o5, "pk", OptFlag(c.pk));
    KeyPutIf(o0, "type", OptStr(c.sqlType), "type");
    KeyPutIf(o1, "defaultValue", OptStr(c.defaultValue), "type");
    KeyPutIf(o2, "required", OptFlag(c.required), "type");
    KeyPutIf(o3, "unique", OptFlag(c.unique), "type");
    KeyPutIf(o4, "uniqueGroup", OptStr(c.uniqueGroup), "type");
    KeyPutIf(o5, "pk", OptFlag(c.pk), "type");
    KeyPutIf(o6, "fk", if c.fk.Some? then Some(Obj(FkObject(c.fk.value))) else None, "type");
  }

  // ---------------------------------------------------------------------
  // migrate: the declared side
  // ---------------------------------------------------------------------

  /** A `uniqueGroup` that `if (column.uniqueGroup)` accepts: present and
      not the empty string. */
  predicate InGroup(c: Column)
  {
    c.uniqueGroup.Some? && c.uniqueGroup.value != ""
  }

  /** The change `migrate` makes to the model's own column object: a primary
      key becomes required, and a column without a foreign key trades its
      group for `unique`. A column with a foreign key is copied before the
      group is removed, so the model keeps that group. */
  function MutateColumn(c: Column): Column
  {
    var c := if IsTrue(c.pk) then c.(required := Some(true)) else c;
    if c.fk.None? && InGroup(c) then c.(uniqueGroup := None, unique := Some(true)) else c
  }

  /** Migrating a column a second time changes nothing more. */
  lemma MutateIdempotent(c: Column)
    ensures MutateColumn(MutateColumn(c)) == MutateColumn(c)
  {
  }

  function MigratedEntry(e: ColumnEntry): ColumnEntry
  {
    ColumnEntry(e.name, MutateColumn(e.column))
  }

  /** The model's schema after `migrate`. */
  function MigratedSchema(s: Schema): (r: Schema)
    ensures |r| == |s|
    ensures forall i :: 0 <= i < |s| ==> r[i] == MigratedEntry(s[i])
  {
    seq(|s|, i requires 0 <= i < |s| => MigratedEntry(s[i]))
  }

  /** The default foreign-key column of `{ column: "id", ...column.fk }`. */
  const FkDefaults := [Field("column", Str("id"))]

  /** `if (column.pk) column.required = true` on a column object. */
  function RequireKey(c: Column, o: seq<Field>): seq<Field>
  {
    if IsTrue(c.pk) then Put(o, "required", Bool(true)) else o
  }

  /** `{ type: "INTEGER", ...column, fk: { column: "id", ...column.fk } }`
      for a column with a foreign key. */
  function WidenForeignKey(c: Column, o: seq<Field>): seq<Field>
  {
    if c.fk.Some? then
      Put(Spread([Field("type", Str("INTEGER"))], o), "fk", Obj(Spread(FkDefaults, FkObject(c.fk.value))))
    else o
  }

  /** `delete column.uniqueGroup; column.unique = true` for a truthy group. */
  function DropGroup(c: Column, o: seq<Field>): seq<Field>
  {
    if InGroup(c) then Put(Remove(o, "uniqueGroup"), "unique", Bool(true)) else o
  }

  /** The declared object for one column: the model's column after the
      mutation, widened when it has a foreign key, then stripped of a
      truthy `uniqueGroup`, which becomes `unique: true`. */
  function DeclaredColumn(c: Column): seq<Field>
  {
    DropGroup(c, WidenForeignKey(c, RequireKey(c, ColumnObject(c))))
  }

  /** The column the declared object describes, property by property (the
      foreign key's own properties come in a different order; see
      `FkDefaultsRead`). */
  function NormalisedColumn(c: Column): (r: Column)
    ensures IsTrue(c.pk) ==> r.required == Some(true)
    ensures InGroup(c) ==> r.uniqueGroup.None? && r.unique == Some(true)
    ensures c.fk.Some? ==> r.sqlType.Some? && r.fk.Some? && r.fk.value.column.Some?
    ensures c.fk.None? ==> r == MutateColumn(c)
  {
    Column(
      if c.fk.Some? && c.sqlType.None? then Some("INTEGER") else c.sqlType,
      c.defaultValue,
      if IsTrue(c.pk) then Some(true) else c.required,
      if InGroup(c) then Some(true) else c.unique,
      if InGroup(c) then None else c.uniqueGroup,
      c.pk,
      if c.fk.Some? && c.fk.value.column.None? then Some(c.fk.value.(column := Some("id"))) else c.fk)
  }

  /** `{ column: "id", ...fk }` reads as the foreign key with its column
      defaulted to `id`. */
  lemma FkDefaultsRead(fk: ForeignKey, k: string)
    ensures Distinct(Keys(Spread(FkDefaults, FkObject(fk))))
    ensures Get(Spread(FkDefaults, FkObject(fk)), k) ==
      FkProperty(fk.(column := Some(if fk.column.Some? then fk.column.value else "id")), k)
  {
    FkDefaultsGet(fk, k);
    SpreadDistinct(FkDefaults, FkObject(fk));
  }

  /** The property reads of that spread. */
  lemma FkDefaultsGet(fk: ForeignKey, k: string)
    ensures Get(Spread(FkDefaults, FkObject(fk)), k) ==
      FkProperty(fk.(column := Some(if fk.column.Some? then fk.column.value else "id")), k)
  {
    FkObjectReads(fk, k);
    GetSpread(FkDefaults, FkObject(fk), k);
    if k != "column" {
      assert Get(FkDefaults, k) == Undefined by {
        GetShift(FkDefaults[0], [], k);
        assert FkDefaults == [FkDefaults[0]] + [];
      }
      if k !in Keys(FkObject(fk)) {
        GetAbsentKey(FkObject(fk), k);
      }
    }
  }

  /** A spread over an object with distinct keys keeps them distinct. */
  lemma {:induction false} SpreadDistinct(base: seq<Field>, fs: seq<Field>)
    requires Distinct(Keys(base))
    ensures Distinct(Keys(Spread(base, fs)))
  {
    if fs != [] {
      SpreadDistinct(base, fs[..|fs| - 1]);
      DistinctPut(Spread(base, fs[..|fs| - 1]), fs[|fs| - 1].key, fs[|fs| - 1].val);
    }
  }

  lemma RequireKeyReads(c: Column, o: seq<Field>, k: string)
    requires Distinct(Keys(o))
    ensures Distinct(Keys(RequireKey(c, o)))
    ensures "type" in Keys(RequireKey(c, o)) <==> "type" in Keys(o)
    ensures Get(RequireKey(c, o), k) == if IsTrue(c.pk) && k == "required" then Bool(true) else Get(o, k)
  {
    if IsTrue(c.pk) {
      DistinctPut(o, "required", Bool(true));
      if k != "required" {
        PutOther(o, "required", Bool(true), k);
      }
    }
  }

  lemma WidenForeignKeyReads(c: Column, o: seq<Field>, k: string)
    requires Distinct(Keys(o))
    ensures Distinct(Keys(WidenForeignKey(c, o)))
    ensures Get(WidenForeignKey(c, o), k) ==
      if c.fk.Some? && k == "fk" then Obj(Spread(FkDefaults, FkObject(c.fk.value)))
      else if c.fk.Some? && k == "type" && "type" !in Keys(o) then Str("INTEGER")
      else Get(o, k)
  {
    if c.fk.Some? {
      var base := [Field("type", Str("INTEGER"))];
      var fkv := Obj(Spread(FkDefaults, FkObject(c.fk.value)));
      var sp := Spread(base, o);
      SpreadDistinct(base, o);
      DistinctPut(sp, "fk", fkv);
      GetSpread(base, o, k);
      if k != "fk" {
        PutOther(sp, "fk", fkv, k);
      }
      if k != "type" && k !in Keys(o) {
        GetAbsentKey(o, k);
        assert Get(base, k) == Undefined by {
          GetShift(base[0], [], k);
          assert base == [base[0]] + [];
        }
      }
    }
  }

  lemma DropGroupReads(c: Column, o: seq<Field>, k: string)
    requires Distinct(Keys(o))
    ensures Distinct(Keys(DropGroup(c, o)))
    ensures Get(DropGroup(c, o), k) ==
      if InGroup(c) && k == "unique" then Bool(true)
      else if InGroup(c) && k == "uniqueGroup" then Undefined
      else Get(o, k)
  {
    if InGroup(c) {
      var o3 := Remove(o, "uniqueGroup");
      RemoveDistinct(o, "uniqueGroup");
      DistinctPut(o3, "unique", Bool(true));
      GetRemove(o, "uniqueGroup", k);
      if k != "unique" {
        PutOther(o3, "unique", Bool(true), k);
      }
    }
  }

  /** Reading one property of the declared object, stage by stage. */
  lemma DeclaredReads(c: Column, k: string)
    ensures Distinct(Keys(DeclaredColumn(c)))
    ensures Get(DeclaredColumn(c), k) ==
      if InGroup(c) && k == "unique" then Bool(true)
      else if InGroup(c) && k == "uniqueGroup" then Undefined
      else if c.fk.Some? && k == "fk" then Obj(Spread(FkDefaults, FkObject(c.fk.value)))
      else if c.fk.Some? && k == "type" && c.sqlType.None? then Str("INTEGER")
      else if IsTrue(c.pk) && k == "required" then Bool(true)
      else ColumnProperty(c, k)
  {
    var o0 := ColumnObject(c);
    var o1 := RequireKey(c, o0);
    var o2 := WidenForeignKey(c, o1);
    ColumnObjectReads(c, k);
    ColumnObjectDistinct(c);
    ColumnObjectHasType(c);
    RequireKeyReads(c, o0, k);
    WidenForeignKeyReads(c, o1, k);
    DropGroupReads(c, o2, k);
  }

  /** The declared object of a column reads, property by property, as the
      normalised column. Without a foreign key it is the model's own column
      object, which `migrate` has mutated. */
  lemma DeclaredNormalised(c: Column, k: string)
    ensures Distinct(Keys(DeclaredColumn(c)))
    ensures k != "fk" || c.fk.None? ==> Get(DeclaredColumn(c), k) == ColumnProperty(NormalisedColumn(c), k)
    ensures c.fk.Some? ==> Get(DeclaredColumn(c), "fk") == Obj(Spread(FkDefaults, FkObject(c.fk.value)))
  {
    DeclaredReads(c, k);
    DeclaredReads(c, "fk");
    if k != "fk" || c.fk.None? {
      DeclaredProperty(c, k);
    }
  }

  /** One property of the declared object, other than a foreign key. */
  lemma DeclaredProperty(c: Column, k: string)
    requires k != "fk" || c.fk.None?
    ensures Get(DeclaredColumn(c), k) == ColumnProperty(NormalisedColumn(c), k)
  {
    DeclaredReads(c, k);
    var n := NormalisedColumn(c);
    if k == "type" {
      assert Get(DeclaredColumn(c), k) == OrUndefined(OptStr(n.sqlType));
    } else if k == "required" {
      assert Get(DeclaredColumn(c), k) == OrUndefined(OptFlag(n.required));
    } else if k == "unique" {
      assert Get(DeclaredColumn(c), k) == OrUndefined(OptFlag(n.unique));
    } else if k == "uniqueGroup" {
      assert Get(DeclaredColumn(c), k) == OrUndefined(OptStr(n.uniqueGroup));
    } else if k == "fk" {
      assert n.fk == c.fk;
    }
  }

  /** A key that is not there reads as `undefined`. */
  lemma {:induction false} GetAbsentKey(fs: seq<Field>, k: string)
    requires k !in Keys(fs)
    ensures Get(fs, k) == Undefined
  {
    if fs != [] {
      assert fs == [fs[0]] + fs[1..];
      assert Keys(fs) == [fs[0].key] + Keys(fs[1..]);
      GetAbsentKey(fs[1..], k);
      GetShift(fs[0], fs[1..], k);
    }
  }

  /** Deleting a key keeps the other keys distinct. */
  lemma {:induction false} RemoveDistinct(fs: seq<Field>, k: string)
    requires Distinct(Keys(fs))
    ensures Distinct(Keys(Remove(fs, k)))
  {
    if fs != [] {
      DistinctTail(fs);
      RemoveDistinct(fs[1..], k);
      var rest := Remove(fs[1..], k);
      if fs[0].key != k {
        assert Remove(fs, k) == [fs[0]] + rest;
        forall g | g in rest
          ensures g.key != fs[0].key
        {
          var j :| 0 <= j < |fs| - 1 && fs[1..][j] == g;
          assert Keys(fs)[0] != Keys(fs)[j + 1];
        }
        DistinctCons(fs[0], rest);
      } else {
        assert Remove(fs, k) == rest;
      }
    }
  }

  /** The fields after the first of an object with distinct keys have
      distinct keys. */
  lemma DistinctTail(fs: seq<Field>)
    requires fs != [] && Distinct(Keys(fs))
    ensures Distinct(Keys(fs[1..]))
  {
    forall i, j | 0 <= i < j < |fs| - 1
      ensures Keys(fs[1..])[i] != Keys(fs[1..])[j]
    {
      assert Keys(fs)[i + 1] != Keys(fs)[j + 1];
    }
  }

  /** A field put in front of fields with distinct keys other than its own
      keeps the keys distinct. */
  lemma DistinctCons(f: Field, rest: seq<Field>)
    requires Distinct(Keys(rest))
    requires forall g | g in rest :: g.key != f.key
    ensures Distinct(Keys([f] + rest))
  {
    var ks := Keys([f] + rest);
    forall i, j | 0 <= i < j < |ks|
      ensures ks[i] != ks[j]
    {
      assert ks[j] == rest[j - 1].key;
      if i == 0 {
        assert rest[j - 1] in rest;
      } else {
        assert ks[i] == Keys(rest)[i - 1] && ks[j] == Keys(rest)[j - 1];
      }
    }
  }

  /** Running `migrate` again declares the same columns. */
  lemma DeclaredRepeatable(c: Column)
    ensures NormalisedColumn(MutateColumn(c)) == NormalisedColumn(c)
  {
  }

  /** `schemaDef[key]`: the declared objects of a model's columns. */
  function DeclaredTable(schema: Schema, n: nat): seq<Field>
    requires n <= |schema|
  {
    if n == 0 then []
    else Put(DeclaredTable(schema, n - 1), schema[n - 1].name, Obj(DeclaredColumn(schema[n - 1].column)))
  }

  /** The declared tables of the models, in model order. */
  function DeclaredTables(schemas: seq<Schema>): (r: seq<seq<Field>>)
    ensures |r| == |schemas|
    ensures forall i :: 0 <= i < |r| ==> r[i] == DeclaredTable(schemas[i], |schemas[i]|)
  {
    seq(|schemas|, i requires 0 <= i < |schemas| => DeclaredTable(schemas[i], |schemas[i]|))
  }

  /** After `migrate` a model's unique groups are the ones on foreign-key
      columns and the empty-named group: every other group was traded for
      `unique`. */
  lemma MigratedGroups(s: Schema)
    ensures forall g :: g in GroupKeys(MigratedSchema(s), |s|) <==>
      exists i :: 0 <= i < |s| && s[i].column.uniqueGroup == Some(g) && (g == "" || s[i].column.fk.Some?)
  {
    var m := MigratedSchema(s);
    GroupKeysSpec(m, |s|);
    forall g
      ensures (exists i :: 0 <= i < |s| && m[i].column.uniqueGroup == Some(g)) <==>
        exists i :: 0 <= i < |s| && s[i].column.uniqueGroup == Some(g) && (g == "" || s[i].column.fk.Some?)
    {
      forall i | 0 <= i < |s|
        ensures m[i].column.uniqueGroup == Some(g) <==> s[i].column.uniqueGroup == Some(g) && (g == "" || s[i].column.fk.Some?)
      {
        assert m[i] == MigratedEntry(s[i]);
      }
    }
  }

  /** So once `migrate` has run over a model whose groups are all on plain
      columns, `define` adds no group constraints for it any more. */
  lemma MigrateDropsGroupConstraints(tableName: string, s: Schema)
    requires forall i :: 0 <= i < |s| ==> s[i].column.fk.None? && s[i].column.uniqueGroup != Some("")
    ensures DefinitionOf(tableName, MigratedSchema(s)).addUniqueGroupConstraints == []
    ensures |DefinitionOf(tableName, s).addUniqueGroupConstraints| == |GroupKeys(s, |s|)|
  {
    MigratedGroups(s);
    var groups := GroupKeys(MigratedSchema(s), |s|);
    assert forall g :: g !in groups;
    NoMemberEmpty(groups);
  }

  /** A sequence without members is empty. */
  lemma NoMemberEmpty<T>(s: seq<T>)
    ensures (forall x :: x !in s) ==> s == []
  {
    if s != [] {
      assert s[0] in s;
    }
  }

  // ---------------------------------------------------------------------
  // migrate: the live side
  // ---------------------------------------------------------------------

  /** A nullable catalog string as a JavaScript value. */
  function OptText(s: Option<string>): Value
  {
    if s.Some? then Str(s.value) else Null
  }

  /** The `fk` object built from a foreign-key constraint row. */
  function LiveFk(fk: ConstraintRow): seq<Field>
  {
    var o := PutIf([], "table", Some(OptText(fk.tableReferences)));
    var o := PutIf(o, "column", Some(OptText(fk.columnReferences)));
    var o := PutIf(o, "onUpdate", OptAction(OnActionType(fk.onUpdate)));
    PutIf(o, "onDelete", OptAction(OnActionType(fk.onDelete)))
  }

  /** One column of the live schema, built the way the `formatted` reducer
      builds it. */
  function LiveColumn(c: ColumnRow, pks: seq<ConstraintRow>, fks: seq<ConstraintRow>, uks: seq<ConstraintRow>): seq<Field>
  {
    var pkDef := FindConstraint(pks, c.columnName);
    var fkDef := FindConstraint(fks, c.columnName);
    var unique := FindConstraint(uks, c.columnName);
    var t := ColumnType(c, pkDef);
    var o := PutIf([], "type", Some(Str(t)));
    var o := PutIf(o, "required", if c.isNullable == "NO" then Some(Bool(true)) else None);
    var o := PutIf(o, "unique", if unique.Some? then Some(Bool(true)) else None);
    var o := PutIf(o, "pk", if pkDef.Some? then Some(Bool(true)) else None);
    var o := PutIf(o, "defaultValue",
      if pkDef.Some? then (if t != "SERIAL" then Some(OptText(c.columnDefault)) else None)
      else if c.columnDefault.Some? then Some(Str(c.columnDefault.value))
      else None);
    PutIf(o, "fk", if fkDef.Some? then Some(Obj(LiveFk(fkDef.value))) else None)
  }

  /** What reading property `k` of a live column gives. */
  function LiveProperty(c: ColumnRow, pks: seq<ConstraintRow>, fks: seq<ConstraintRow>, uks: seq<ConstraintRow>, k: string): Value
  {
    var pkDef := FindConstraint(pks, c.columnName);
    var fkDef := FindConstraint(fks, c.columnName);
    var t := ColumnType(c, pkDef);
    if k == "fk" then (if fkDef.Some? then Obj(LiveFk(fkDef.value)) else Undefined)
    else if k == "defaultValue" then
      (if pkDef.Some? then (if t != "SERIAL" then OptText(c.columnDefault) else Undefined)
       else OrUndefined(OptStr(c.columnDefault)))
    else if k == "pk" then (if pkDef.Some? then Bool(true) else Undefined)
    else if k == "unique" then (if FindConstraint(uks, c.columnName).Some? then Bool(true) else Undefined)
    else if k == "required" then (if c.isNullable == "NO" then Bool(true) else Undefined)
    else if k == "type" then Str(t)
    else Undefined
  }

  lemma LiveRead(c: ColumnRow, pks: seq<ConstraintRow>, fks: seq<ConstraintRow>, uks: seq<ConstraintRow>, k: string)
    ensures Get(LiveColumn(c, pks, fks, uks), k) == LiveProperty(c, pks, fks, uks, k)
  {
    var pkDef := FindConstraint(pks, c.columnName);
    var fkDef := FindConstraint(fks, c.columnName);
    var unique := FindConstraint(uks, c.columnName);
    var t := ColumnType(c, pkDef);
    var o0: seq<Field> := [];
    var v1 := Some(Str(t));
    var o1 := PutIf(o0, "type", v1);
    var v2 := if c.isNullable == "NO" then Some(Bool(true)) else None;
    var o2 := PutIf(o1, "required", v2);
    var v3 := if unique.Some? then Some(Bool(true)) else None;
    var o3 := PutIf(o2, "unique", v3);
    var v4 := if pkDef.Some? then Some(Bool(true)) else None;
    var o4 := PutIf(o3, "pk", v4);
    var v5 := if pkDef.Some? then (if t != "SERIAL" then Some(OptText(c.columnDefault)) else None)
      else if c.columnDefault.Some? then Some(Str(c.columnDefault.value))
      else None;
    var o5 := PutIf(o4, "defaultValue", v5);
    var v6 := if fkDef.Some? then Some(Obj(LiveFk(fkDef.value))) else None;
    GetPutIf(o0, "type", v1, k);
    GetPutIf(o1, "required", v2, k);
    GetPutIf(o2, "unique", v3, k);
    GetPutIf(o3, "pk", v4, k);
    GetPutIf(o4, "defaultValue", v5, k);
    GetPutIf(o5, "fk", v6, k);
    assert LiveColumn(c, pks, fks, uks) == PutIf(o5, "fk", v6);
  }

  /** What the live column says: its type always; `required` exactly for a
      NOT NULL column; `pk` exactly for a column with a primary-key
      constraint, and then a serial key has no default while any other
      reports its default even when it is null; `fk` exactly for a column
      with a foreign-key constraint; and no live column ever carries a
      `uniqueGroup`, which is why the declared side strips it. */
  lemma LiveNormalised(c: ColumnRow, pks: seq<ConstraintRow>, fks: seq<ConstraintRow>, uks: seq<ConstraintRow>)
    ensures var o := LiveColumn(c, pks, fks, uks); var pkDef := FindConstraint(pks, c.columnName);
      && Get(o, "type") == Str(ColumnType(c, pkDef))
      && (Get(o, "required") == Bool(true) <==> c.isNullable == "NO")
      && (Get(o, "pk") == Bool(true) <==> exists i :: 0 <= i < |pks| && pks[i].columnName == Some(c.columnName))
      && (pkDef.Some? && ColumnType(c, pkDef) == "SERIAL" ==> Get(o, "defaultValue") == Undefined)
      && (pkDef.Some? && ColumnType(c, pkDef) != "SERIAL" ==> Get(o, "defaultValue") == OptText(c.columnDefault))
      && (pkDef.None? ==> Get(o, "defaultValue") == OrUndefined(OptStr(c.columnDefault)))
      && (Get(o, "fk") != Undefined <==> exists i :: 0 <= i < |fks| && fks[i].columnName == Some(c.columnName))
      && Get(o, "uniqueGroup") == Undefined
  {
    LiveRead(c, pks, fks, uks, "type");
    LiveRead(c, pks, fks, uks, "required");
    LiveRead(c, pks, fks, uks, "pk");
    LiveRead(c, pks, fks, uks, "defaultValue");
    LiveRead(c, pks, fks, uks, "fk");
    LiveRead(c, pks, fks, uks, "uniqueGroup");
  }

  /** `formatted`: the live columns of one table, keyed by column name. */
  function LiveTable(tableName: string, constraints: seq<ConstraintRow>, rows: seq<ColumnRow>, n: nat): seq<Field>
    requires n <= |rows|
  {
    if n == 0 then []
    else
      Put(LiveTable(tableName, constraints, rows, n - 1), rows[n - 1].columnName,
        Obj(LiveColumn(rows[n - 1], OfKind(constraints, tableName, 'p'), OfKind(constraints, tableName, 'f'), OfKind(constraints, tableName, 'u'))))
  }

  /** `total[key] = def` for each key in turn. */
  function Keyed(keys: seq<string>, tables: seq<seq<Field>>, n: nat): seq<Field>
    requires |keys| == |tables| && n <= |keys|
  {
    if n == 0 then []
    else Put(Keyed(keys, tables, n - 1), keys[n - 1], Obj(tables[n - 1]))
  }

  /** The live tables of the models, in model order. */
  function LiveTables(tableNames: seq<string>, constraints: seq<ConstraintRow>, columnRows: seq<seq<ColumnRow>>): (r: seq<seq<Field>>)
    requires |tableNames| == |columnRows|
    ensures |r| == |tableNames|
    ensures forall i :: 0 <= i < |r| ==> r[i] == LiveTable(tableNames[i], constraints, columnRows[i], |columnRows[i]|)
  {
    seq(|tableNames|, i requires 0 <= i < |tableNames| => LiveTable(tableNames[i], constraints, columnRows[i], |columnRows[i]|))
  }

  /** The reducer over the column rows of one table. */
  method FormatColumns(tableName: string, constraints: seq<ConstraintRow>, rows: seq<ColumnRow>) returns (table: seq<Field>)
    ensures table == LiveTable(tableName, constraints, rows, |rows|)
  {
    var pks := OfKind(constraints, tableName, 'p');
    var fks := OfKind(constraints, tableName, 'f');
    var uks := OfKind(constraints, tableName, 'u');
    table := [];
    for i := 0 to |rows|
      invariant table == LiveTable(tableName, constraints, rows, i)
    {
      table := Put(table, rows[i].columnName, Obj(LiveColumn(rows[i], pks, fks, uks)));
    }
  }

  /** `actualSchema`: the live tables, keyed by model key. */
  method FormatSchema(keys: seq<string>, tableNames: seq<string>, constraints: seq<ConstraintRow>, columnRows: seq<seq<ColumnRow>>)
    returns (live: seq<Field>)
    requires |keys| == |tableNames| == |columnRows|
    ensures live == Keyed(keys, LiveTables(tableNames, constraints, columnRows), |keys|)
  {
    ghost var tables := LiveTables(tableNames, constraints, columnRows);
    live := [];
    for i := 0 to |keys|
      invariant live == Keyed(keys, tables, i)
    {
      var table := FormatColumns(tableNames[i], constraints, columnRows[i]);
      assert table == tables[i];
      live := Put(live, keys[i], Obj(table));
    }
  }

  /** The reducer over one model's columns: builds the declared objects and
      mutates the model's columns as it goes. */
  method DeclareModel(m: Model) returns (table: seq<Field>)
    modifies m
    ensures m.schema == MigratedSchema(old(m.schema))
    ensures table == DeclaredTable(old(m.schema), |old(m.schema)|)
  {
    var columns := m.schema;
    table := [];
    for i := 0 to |columns|
      invariant |m.schema| == |columns|
      invariant table == DeclaredTable(columns, i)
      invariant forall j :: 0 <= j < i ==> m.schema[j] == MigratedEntry(columns[j])
      invariant forall j :: i <= j < |columns| ==> m.schema[j] == columns[j]
    {
      table := Put(table, columns[i].name, Obj(DeclaredColumn(columns[i].column)));
      m.schema := m.schema[i := MigratedEntry(columns[i])];
    }
  }

  // ---------------------------------------------------------------------
  // The database object
  // ---------------------------------------------------------------------

  /** The schemas of a list of models. */
  function SchemasOf(models: seq<Model>): (r: seq<Schema>)
    reads models
    ensures |r| == |models|
    ensures forall i :: 0 <= i < |r| ==> r[i] == models[i].schema
  {
    if models == [] then [] else SchemasOf(models[..|models| - 1]) + [models[|models| - 1].schema]
  }

  /** The first loop of `migrate`: every model declares its table, in turn. */
  method DeclareModels(keys: seq<string>, models: seq<Model>) returns (declared: seq<Field>)
    requires |keys| == |models|
    requires forall i, j :: 0 <= i < j < |models| ==> models[i] != models[j]
    modifies models
    ensures forall i :: 0 <= i < |models| ==> models[i].schema == MigratedSchema(old(models[i].schema))
    ensures declared == Keyed(keys, DeclaredTables(old(SchemasOf(models))), |keys|)
  {
    ghost var before := SchemasOf(models);
    ghost var after := seq(|before|, j requires 0 <= j < |before| => MigratedSchema(before[j]));
    declared := DeclareLoop(keys, models, before, after, DeclaredTables(before));
    forall k | 0 <= k < |models|
      ensures models[k].schema == MigratedSchema(old(models[k].schema))
    {
      assert old(models[k].schema) == before[k];
      assert SchemasOf(models)[k] == after[k];
    }
  }

  /** That loop, going from the schemas `before` to the schemas `after` and
      collecting the `tables` they declare. */
  method DeclareLoop(keys: seq<string>, models: seq<Model>, ghost before: seq<Schema>,
                     ghost after: seq<Schema>, ghost tables: seq<seq<Field>>) returns (declared: seq<Field>)
    requires |keys| == |models| == |before| == |after| == |tables|
    requires forall i, j :: 0 <= i < j < |models| ==> models[i] != models[j]
    requires forall j :: 0 <= j < |before| ==> after[j] == MigratedSchema(before[j])
    requires forall j :: 0 <= j < |before| ==> tables[j] == DeclaredTable(before[j], |before[j]|)
    requires SchemasOf(models) == before
    modifies models
    ensures declared == Keyed(keys, tables, |keys|)
    ensures SchemasOf(models) == after
  {
    declared := [];
    for i := 0 to |models|
      invariant declared == Keyed(keys, tables, i)
      invariant SchemasOf(models) == after[..i] + before[i..]
    {
      declared := DeclareNext(keys, models, i, declared, before, after, tables);
    }
  }

  /** One turn of that loop, on the state the loop keeps. */
  method DeclareNext(keys: seq<string>, models: seq<Model>, i: nat, declared: seq<Field>,
                     ghost before: seq<Schema>, ghost after: seq<Schema>, ghost tables: seq<seq<Field>>)
    returns (next: seq<Field>)
    requires i < |keys| == |models| == |before| == |after| == |tables|
    requires forall i, j :: 0 <= i < j < |models| ==> models[i] != models[j]
    requires after[i] == MigratedSchema(before[i])
    requires tables[i] == DeclaredTable(before[i], |before[i]|)
    requires declared == Keyed(keys, tables, i)
    requires SchemasOf(models) == after[..i] + before[i..]
    modifies models[i]
    ensures next == Keyed(keys, tables, i + 1)
    ensures SchemasOf(models) == after[..i + 1] + before[i + 1..]
  {
    ghost var was := SchemasOf(models);
    assert was[i] == before[i];
    var table := DeclareAt(models, i);
    next := Put(declared, keys[i], Obj(table));
    ghost var now := SchemasOf(models);
    SpliceNext(was, now, before, after, i);
  }

  /** Replacing the `i`-th schema of `after[..i] + before[i..]` by `after[i]`
      moves the splice one step on. */
  lemma SpliceNext(was: seq<Schema>, now: seq<Schema>, before: seq<Schema>, after: seq<Schema>, i: nat)
    requires i < |was| == |now| == |before| == |after|
    requires was == after[..i] + before[i..]
    requires now[i] == after[i]
    requires forall j :: 0 <= j < |now| && j != i ==> now[j] == was[j]
    ensures now == after[..i + 1] + before[i + 1..]
  {
    forall j | 0 <= j < |now|
      ensures now[j] == (after[..i + 1] + before[i + 1..])[j]
    {
      if j != i {
        assert now[j] == was[j];
      }
    }
  }

  /** One turn of that loop: model `i` declares its table and no other
      model changes. */
  method DeclareAt(models: seq<Model>, i: nat) returns (table: seq<Field>)
    requires i < |models|
    requires forall i, j :: 0 <= i < j < |models| ==> models[i] != models[j]
    modifies models[i]
    ensures models[i].schema == MigratedSchema(old(models[i].schema))
    ensures table == DeclaredTable(old(models[i].schema), |old(models[i].schema)|)
    ensures forall j :: 0 <= j < |models| && j != i ==> models[j].schema == old(models[j].schema)
  {
    table := DeclareModel(models[i]);
    forall j | 0 <= j < |models| && j != i
      ensures models[j].schema == old(models[j].schema)
    {
      assert models[j] != models[i];
    }
  }



  // ---------------------------------------------------------------------
  // init
  // ---------------------------------------------------------------------

  /** What `init` reads from each model. */
  function StatesOf(models: seq<Model>): (r: seq<ModelState>)
    reads models
    ensures |r| == |models|
    ensures forall i :: 0 <= i < |models| ==>
      r[i] == ModelState(models[i].tableName, models[i].schema, models[i].seedData)
  {
    seq(|models|, i reads models requires 0 <= i < |models| =>
      ModelState(models[i].tableName, models[i].schema, models[i].seedData))
  }

  /** `tableSQL`: every model's `define()`, in model order. */
  function Defs(states: seq<ModelState>): (r: seq<Definition>)
    ensures |r| == |states|
    ensures forall i :: 0 <= i < |states| ==> r[i] == DefinitionOf(states[i].tableName, states[i].schema)
  {
    seq(|states|, i requires 0 <= i < |states| => DefinitionOf(states[i].tableName, states[i].schema))
  }

  /** `this.modelKeys.map(key => this.models[key].define())` */
  method DefineAll(models: seq<Model>) returns (defs: seq<Definition>)
    ensures defs == Defs(StatesOf(models))
  {
    defs := [];
    for i := 0 to |models|
      invariant |defs| == i
      invariant forall j :: 0 <= j < i ==> defs[j] == DefinitionOf(models[j].tableName, models[j].schema)
    {
      var d := models[i].Define();
      defs := defs + [d];
    }
  }

  /** One turn of the seeding loop: model `i` seeds itself after the
      models before it, which all succeeded. */
  method SeedNextModel(models: seq<Model>, i: nat, db: Executor, ghost states: seq<ModelState>, ghost seed: Seeder,
                       ghost before: seq<Statement>, ghost t: Trace<()>)
      returns (s: Result<bool>, ghost next: Trace<()>)
    requires i < |models| && states == StatesOf(models)
    requires SeedsAs(seed, states, db.hash, db.respond, 0)
    requires t == SeedAll(states, seed, |before|, i) && t.outcome.Ok?
    requires db.issued == before + t.sent
    modifies db
    ensures db.releases == old(db.releases)
    ensures next == SeedAll(states, seed, |before|, i + 1)
    ensures db.issued == before + next.sent
    ensures next.outcome == if s.Err? then Err(s.message) else Ok(())
  {
    ghost var at := |db.issued|;
    ghost var seeded := SeedTrace(models[i].tableName, models[i].schema, models[i].seedData,
      db.hash, db.respond, at);
    s := models[i].Seed(db);
    assert db.issued == before + t.sent + seeded.sent && s == seeded.outcome;
    assert states[i] == ModelState(models[i].tableName, models[i].schema, models[i].seedData);
    SeedsAsAt(seed, states, db.hash, db.respond, 0, i);
    assert seed(states[i], at) == seeded;
    SeedNext(states, seed, |before|, i, t, at, seeded);
    AppendTwice(before, t.sent, seeded.sent);
    next := Trace(t.sent + seeded.sent, if seeded.outcome.Err? then Err(seeded.outcome.message) else Ok(()));
  }

  /** The seeding loop of `init`: every model in turn, stopping at the first
      seed that throws. */
  method SeedModels(models: seq<Model>, db: Executor, ghost seed: Seeder) returns (r: Result<()>)
    requires SeedsAs(seed, StatesOf(models), db.hash, db.respond, 0)
    modifies db
    ensures db.releases == old(db.releases)
    ensures db.issued == old(db.issued) + SeedAll(StatesOf(models), seed, |old(db.issued)|, |models|).sent
    ensures r == SeedAll(StatesOf(models), seed, |old(db.issued)|, |models|).outcome
  {
    ghost var states := StatesOf(models);
    ghost var n;
    ghost var start := |db.issued|;
    r, n := SeedUntilFailure(models, db, states, seed);
    if n < |models| {
      SeedSticks(states, seed, start, n, |models|);
    }
  }

  /** The loop itself: it ends after the last model or after the first
      model whose seed throws, at `n`. */
  method SeedUntilFailure(models: seq<Model>, db: Executor, ghost states: seq<ModelState>, ghost seed: Seeder)
      returns (r: Result<()>, ghost n: nat)
    requires states == StatesOf(models)
    requires SeedsAs(seed, states, db.hash, db.respond, 0)
    modifies db
    ensures n <= |models| && (n < |models| ==> r.Err?)
    ensures db.releases == old(db.releases)
    ensures db.issued == old(db.issued) + SeedAll(states, seed, |old(db.issued)|, n).sent
    ensures r == SeedAll(states, seed, |old(db.issued)|, n).outcome
  {
    ghost var before := db.issued;
    ghost var t := Trace([], Ok(()));
    r := Ok(());
    var i := 0;
    while i < |models| && r.Ok?
      invariant i <= |models|
      invariant db.releases == old(db.releases)
      invariant t == SeedAll(states, seed, |before|, i)
      invariant db.issued == before + t.sent
      invariant r == t.outcome
    {
      var s;
      s, t := SeedNextModel(models, i, db, states, seed, before, t);
      if s.Err? {
        r := Err(s.message);
      }
      i := i + 1;
    }
    n := i;
  }

  /** The `try` block of `init`: the DDL, then the seeds. */
  method InitSteps(ddl: seq<string>, models: seq<Model>, db: Executor, ghost seed: Seeder) returns (r: Result<()>)
    requires SeedsAs(seed, StatesOf(models), db.hash, db.respond, 0)
    modifies db
    ensures db.releases == old(db.releases)
    ensures db.issued == old(db.issued) + InitTrace(ddl, StatesOf(models), seed, db.respond, |old(db.issued)|).sent
    ensures r == InitTrace(ddl, StatesOf(models), seed, db.respond, |old(db.issued)|).outcome
  {
    ghost var states := StatesOf(models);
    ghost var before := db.issued;
    ghost var a := Run(db.respond, |before|, ddl, |ddl|);
    ghost var b := SeedAll(states, seed, |before| + |ddl|, |states|);
    assert InitTrace(ddl, states, seed, db.respond, |before|) == Then(a, b);
    r := QueryEach(ddl, db);
    if r.Ok? {
      ghost var mid := db.issued;
      assert |mid| == |before| + |ddl| && |states| == |models|;
      assert SeedAll(StatesOf(models), seed, |mid|, |models|) == b;
      r := SeedModels(models, db, seed);
      assert db.issued == mid + b.sent;
      AppendTwice(before, a.sent, b.sent);
      assert Then(a, b) == Trace(a.sent + b.sent, b.outcome);
    }
  }

  /** The `try` block of `init` with the models' own `seed()`. */
  method InitModels(ddl: seq<string>, models: seq<Model>, db: Executor) returns (r: Result<()>)
    modifies db
    ensures db.releases == old(db.releases)
    ensures db.issued == old(db.issued) + InitTrace(ddl, StatesOf(models), SeedOf(db.hash, db.respond), db.respond, |old(db.issued)|).sent
    ensures r == InitTrace(ddl, StatesOf(models), SeedOf(db.hash, db.respond), db.respond, |old(db.issued)|).outcome
  {
    SeedOfSeeds(StatesOf(models), db.hash, db.respond, 0);
    r := InitSteps(ddl, models, db, SeedOf(db.hash, db.respond));
  }

  /** The body of `migrate`, on the models' keys, objects and table names. */
  method MigrateModels(keys: seq<string>, models: seq<Model>, tableNames: seq<string>,
                       constraints: seq<ConstraintRow>, columnRows: seq<seq<ColumnRow>>, json: Value -> string)
    returns (diff: Diff, actual: Value)
    requires |keys| == |models| == |tableNames| == |columnRows|
    requires forall i, j :: 0 <= i < j < |models| ==> models[i] != models[j]
    modifies models
    ensures forall i :: 0 <= i < |models| ==> models[i].schema == MigratedSchema(old(models[i].schema))
    ensures actual == Obj(Keyed(keys, LiveTables(tableNames, constraints, columnRows), |keys|))
    ensures diff == DiffValues(Obj(Keyed(keys, DeclaredTables(old(SchemasOf(models))), |keys|)), actual, [], json)
  {
    var declared := DeclareModels(keys, models);
    var live := FormatSchema(keys, tableNames, constraints, columnRows);
    actual := Obj(live);
    diff := DiffObjects(Obj(declared), actual, [], json);
  }

  class Db {
    /** `modelKeys`, in `Object.keys` order. */
    const keys: seq<string>
    /** `models[modelKeys[i]]` */
    const models: seq<Model>
    const extensions: seq<string>

    constructor (keys: seq<string>, models: seq<Model>, extensions: seq<string>)
      requires |keys| == |models|
      ensures this.keys == keys && this.models == models && this.extensions == extensions
      ensures Valid() <==> Distinct(keys) && forall i, j :: 0 <= i < j < |models| ==> models[i] != models[j]
    {
      this.keys := keys;
      this.models := models;
      this.extensions := extensions;
    }

    /** One model per key, keys distinct, every model a different object. */
    predicate Valid()
    {
      && |keys| == |models|
      && Distinct(keys)
      && forall i, j :: 0 <= i < j < |models| ==> models[i] != models[j]
    }

    function TableNames(): (r: seq<string>)
      ensures |r| == |models|
      ensures forall i :: 0 <= i < |models| ==> r[i] == models[i].tableName
    {
      seq(|models|, i requires 0 <= i < |models| => models[i].tableName)
    }

    function Schemas(): (r: seq<Schema>)
      reads models
    {
      SchemasOf(models)
    }

    /** `init`: refuses to run in production before sending anything;
        otherwise sends the DDL and the seeds and reports whether all of it
        succeeded. */
    method Init(production: bool, db: Executor) returns (r: Result<bool>)
      modifies db
      ensures db.releases == old(db.releases)
      ensures production ==> r == Err("Cannot be run in production") && db.issued == old(db.issued)
      ensures !production ==>
        var states := StatesOf(models);
        var t := InitTrace(DdlTexts(extensions, Defs(states)), states, SeedOf(db.hash, db.respond), db.respond, |old(db.issued)|);
        db.issued == old(db.issued) + t.sent && r == Ok(t.outcome.Ok?)
    {
      if production {
        return Err("Cannot be run in production");
      }
      var defs := DefineAll(models);
      var done := InitModels(DdlTexts(extensions, defs), models, db);
      r := Ok(done.Ok?);
    }

    /** `transact`: BEGIN, the callback, COMMIT; ROLLBACK and rethrow on
        any error; the client goes back to the pool on every path. */
    method Transact<T>(cb: Callback<T>, client: Executor) returns (r: Result<T>)
      modifies client
      ensures client.releases == old(client.releases) + 1
      ensures client.issued == old(client.issued) + TransactTrace(cb, client.respond, |old(client.issued)|).sent
      ensures r == TransactTrace(cb, client.respond, |old(client.issued)|).outcome
    {
      r := TryTransaction(cb, client);
      if r.Err? {
        var b := client.Query("ROLLBACK");
        if b.Err? {
          r := Err(b.message);
        }
      }
      client.Release();
    }

    /** `migrate`: the difference between the declared and the live schema,
        and the live schema itself. Each model's columns are left mutated. */
    method Migrate(constraints: seq<ConstraintRow>, columnRows: seq<seq<ColumnRow>>, json: Value -> string)
      returns (diff: Diff, actual: Value)
      requires Valid() && |columnRows| == |models|
      modifies models
      ensures forall i :: 0 <= i < |models| ==> models[i].schema == MigratedSchema(old(models[i].schema))
      ensures actual == Obj(Keyed(keys, LiveTables(TableNames(), constraints, columnRows), |keys|))
      ensures diff == DiffValues(Obj(Keyed(keys, DeclaredTables(old(SchemasOf(models))), |keys|)), actual, [], json)
    {
      diff, actual := MigrateModels(keys, models, TableNames(), constraints, columnRows, json);
    }
  }

  /** When the live schema is exactly the declared one, `migrate` reports
      no difference; whatever it reports, every change is classified by
      which side has the property. */
  lemma MigrateReports(declared: seq<Field>, live: seq<Field>, json: Value -> string)
    ensures Classified(DiffValues(Obj(declared), Obj(live), [], json), [])
    ensures declared == live ==> DiffValues(Obj(declared), Obj(live), [], json) == EmptyDiff
  {
    DiffClassified(Obj(declared), Obj(live), [], json);
    if declared == live {
      DiffSelf(Obj(declared), [], json);
    }
  }
}
