/** The shapes the data-access layer works with: column and schema
    definitions, join and select arguments, diff records and the operator
    table of the condition language. */
module OrmTypes {

  import opened Wrappers
  import opened JsValue

  /** The referential actions a foreign key may name (the values of `TAction`). */
  datatype Action = Restrict | Cascade | SetNull | SetDefault

  function ActionText(a: Action): string
  {
    match a
    case Restrict => "RESTRICT"
    case Cascade => "CASCADE"
    case SetNull => "SET NULL"
    case SetDefault => "SET DEFAULT"
  }

  /** A foreign-key reference: the table is required, everything else optional. */
  datatype ForeignKey = ForeignKey(
    table: string,
    column: Option<string>,
    onUpdate: Option<Action>,
    onDelete: Option<Action>)

  /** `IModelColumn`: every field optional. An optional boolean is truthy
      only when it is present and true. */
  datatype Column = Column(
    sqlType: Option<string>,
    defaultValue: Option<string>,
    required: Option<bool>,
    unique: Option<bool>,
    uniqueGroup: Option<string>,
    pk: Option<bool>,
    fk: Option<ForeignKey>)

  const NoColumnFields := Column(None, None, None, None, None, None, None)

  predicate IsTrue(b: Option<bool>)
  {
    b == Some(true)
  }

  /** One entry of `IModelSchema`, in declaration order. */
  datatype ColumnEntry = ColumnEntry(name: string, column: Column)

  type Schema = seq<ColumnEntry>

  function ColumnNames(schema: Schema): (names: seq<string>)
    ensures |names| == |schema|
    ensures forall i :: 0 <= i < |schema| ==> names[i] == schema[i].name
  {
    if schema == [] then [] else [schema[0].name] + ColumnNames(schema[1..])
  }

  datatype JoinType = Inner | Left | Right

  function JoinTypeText(t: JoinType): string
  {
    match t
    case Inner => "INNER"
    case Left => "LEFT"
    case Right => "RIGHT"
  }

  /** `IJoin` */
  datatype TableJoin = TableJoin(on: string, table: string, joinType: Option<JoinType>)

  /** `IJoin | IJoin[]` */
  datatype Joins = OneJoin(join: TableJoin) | JoinList(joins: seq<TableJoin>)

  /** `string | string[]` (select lists, group-by lists, returning lists) */
  datatype Names = Name(name: string) | NameList(names: seq<string>)

  /** One entry of an `orderBy` map; the direction is whatever text the caller passed. */
  datatype OrderEntry = OrderEntry(column: string, direction: string)

  /** `ISelectArguments`; an absent `orderBy` is the empty map. */
  datatype SelectArgs = SelectArgs(
    select: Option<Names>,
    where: Option<seq<Field>>,
    join: Option<Joins>,
    orderBy: seq<OrderEntry>,
    limit: Option<int>,
    offset: Option<int>,
    page: Option<int>,
    groupBy: Option<Names>)

  /** `IChange`: where a difference sits, with both sides serialised. */
  datatype Change = Change(path: seq<string>, actual: Option<string>, definition: Option<string>)

  /** `IDiff`: exactly three change lists. */
  datatype Diff = Diff(add: seq<Change>, update: seq<Change>, remove: seq<Change>)

  const EmptyDiff := Diff([], [], [])

  /** The members of `EOperations`. */
  datatype Operation = Any | Like | Or | And | Gt | Gte | Lt | Lte | Ne

  /** The member name, which is the sigil-prefixed key a condition map uses. */
  function OperationKey(op: Operation): string
  {
    match op
    case Any => "$ANY"
    case Like => "$LIKE"
    case Or => "$OR"
    case And => "$AND"
    case Gt => "$GT"
    case Gte => "$GTE"
    case Lt => "$LT"
    case Lte => "$LTE"
    case Ne => "$NE"
  }

  /** The SQL text each member stands for. */
  function OperationText(op: Operation): string
  {
    match op
    case Any => "ANY"
    case Like => "LIKE"
    case Or => "OR"
    case And => "AND"
    case Gt => ">"
    case Gte => ">="
    case Lt => "<"
    case Lte => "<="
    case Ne => "<>"
  }

  /** The members of `EOperations` in declaration order. */
  const AllOperations: seq<Operation> := [Any, Like, Or, And, Gt, Gte, Lt, Lte, Ne]

  /** `EOperations[key]`: the member whose name is `key`, if any. */
  function OperationOf(key: string): (r: Option<Operation>)
    ensures r.Some? ==> OperationKey(r.value) == key
  {
    FindOperation(key, 0)
  }

  function FindOperation(key: string, i: nat): (r: Option<Operation>)
    requires i <= |AllOperations|
    ensures r.Some? ==> OperationKey(r.value) == key
    decreases |AllOperations| - i
  {
    if i == |AllOperations| then None
    else if OperationKey(AllOperations[i]) == key then Some(AllOperations[i])
    else FindOperation(key, i + 1)
  }

  /** Every member is found under its own name, and nothing else is found:
      the lookup is the inverse of `OperationKey`. */
  lemma OperationOfKey(key: string)
    ensures forall op: Operation :: OperationOf(OperationKey(op)) == Some(op)
    ensures OperationOf(key).None? <==> forall op: Operation :: OperationKey(op) != key
  {
    forall op: Operation
      ensures OperationOf(OperationKey(op)) == Some(op)
    {
      FindIndex(op);
    }
    if OperationOf(key).None? {
      forall op: Operation
        ensures OperationKey(op) != key
      {
        FindIndex(op);
      }
    }
  }

  lemma FindIndex(op: Operation)
    ensures OperationOf(OperationKey(op)) == Some(op)
  {
    var k := OperationKey(op);
    assert FindOperation(k, 0) == if op == Any then Some(Any) else FindOperation(k, 1);
    assert FindOperation(k, 1) == if op == Like then Some(Like) else FindOperation(k, 2);
    assert FindOperation(k, 2) == if op == Or then Some(Or) else FindOperation(k, 3);
    assert FindOperation(k, 3) == if op == And then Some(And) else FindOperation(k, 4);
    assert FindOperation(k, 4) == if op == Gt then Some(Gt) else FindOperation(k, 5);
    assert FindOperation(k, 5) == if op == Gte then Some(Gte) else FindOperation(k, 6);
    assert FindOperation(k, 6) == if op == Lt then Some(Lt) else FindOperation(k, 7);
    assert FindOperation(k, 7) == if op == Lte then Some(Lte) else FindOperation(k, 8);
    assert FindOperation(k, 8) == if op == Ne then Some(Ne) else FindOperation(k, 9);
  }

  /** The members the condition language treats as binary comparisons. */
  predicate IsComparison(op: Operation)
  {
    op == Gt || op == Gte || op == Lt || op == Lte || op == Ne
  }

  /** The text a template literal prints for `EOperations[key]`, which is
      `undefined` for a key that is not a member. */
  function OperationTextOf(key: string): string
  {
    match OperationOf(key)
    case Some(op) => OperationText(op)
    case None => "undefined"
  }
}
