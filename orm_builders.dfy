/** The query-builder helpers of the data-access layer: placeholder lists,
    value flattening, key picking, de-duplication, paging offsets and the
    ORDER BY, RETURNING, GROUP BY, JOIN, SELECT and INSERT fragments. */
module OrmBuilders {

  import opened Wrappers
  import opened JsString
  import opened JsValue
  import opened OrmTypes
  import opened OrmConditions

  // ---------------------------------------------------------------------
  // Placeholders and flattened values
  // ---------------------------------------------------------------------

  /** The placeholder for the `n`-th bound value (1-based). */
  function Token(n: nat): string
  {
    "$" + NatToString(n)
  }

  /** The placeholders of a row of `len` values following `start` earlier values. */
  function Tokens(start: nat, len: nat): (r: seq<string>)
    ensures |r| == len
    ensures forall k :: 0 <= k < len ==> r[k] == Token(start + k + 1)
  {
    seq(len, k requires 0 <= k < len => Token(start + k + 1))
  }

  function RowText(start: nat, len: nat): string
  {
    "(" + Join(Tokens(start, len), ", ") + ")"
  }

  /** The number of values in the first `i` rows. */
  function KeyCount(rows: seq<seq<Field>>, i: nat): nat
    requires i <= |rows|
  {
    if i == 0 then 0 else KeyCount(rows, i - 1) + |rows[i - 1]|
  }

  /** The parenthesised placeholder lists of the first `i` rows, numbered
      consecutively across rows. */
  function RowTexts(rows: seq<seq<Field>>, i: nat): (r: seq<string>)
    requires i <= |rows|
    ensures |r| == i
  {
    if i == 0 then [] else RowTexts(rows, i - 1) + [RowText(KeyCount(rows, i - 1), |rows[i - 1]|)]
  }

  /** The values of one row, in key order. */
  function Vals(row: seq<Field>): (r: seq<Value>)
    ensures |r| == |row|
    ensures forall k :: 0 <= k < |row| ==> r[k] == row[k].val
  {
    seq(|row|, k requires 0 <= k < |row| => row[k].val)
  }

  /** The values of the first `i` rows, row after row. */
  function Flatten(rows: seq<seq<Field>>, i: nat): seq<Value>
    requires i <= |rows|
  {
    if i == 0 then [] else Flatten(rows, i - 1) + Vals(rows[i - 1])
  }

  /** `generatePlaceholders`: one `($a, ..., $b)` group per row, the counter
      running on from row to row. */
  method GeneratePlaceholders(rows: seq<seq<Field>>) returns (text: string)
    ensures text == Join(RowTexts(rows, |rows|), ",\n\t")
  {
    var index := 0;
    var texts: seq<string> := [];
    var i := 0;
    while i < |rows|
      invariant 0 <= i <= |rows|
      invariant index == KeyCount(rows, i)
      invariant texts == RowTexts(rows, i)
    {
      var placeholders: seq<string> := [];
      var j := 0;
      while j < |rows[i]|
        invariant 0 <= j <= |rows[i]|
        invariant index == KeyCount(rows, i) + j
        invariant placeholders == Tokens(KeyCount(rows, i), j)
      {
        index := index + 1;
        placeholders := placeholders + ["$" + NatToString(index)];
        assert placeholders == Tokens(KeyCount(rows, i), j + 1);
        j := j + 1;
      }
      texts := texts + ["(" + Join(placeholders, ", ") + ")"];
      i := i + 1;
    }
    text := Join(texts, ",\n\t");
  }

  /** `flattenArrayOfObjects`: every value of every row, pushed in order. */
  method FlattenArrayOfObjects(rows: seq<seq<Field>>) returns (total: seq<Value>)
    ensures total == Flatten(rows, |rows|)
  {
    total := [];
    var i := 0;
    while i < |rows|
      invariant 0 <= i <= |rows|
      invariant total == Flatten(rows, i)
    {
      var j := 0;
      while j < |rows[i]|
        invariant 0 <= j <= |rows[i]|
        invariant total == Flatten(rows, i) + Vals(rows[i])[..j]
      {
        total := total + [rows[i][j].val];
        assert Vals(rows[i])[..j + 1] == Vals(rows[i])[..j] + [rows[i][j].val];
        j := j + 1;
      }
      assert Vals(rows[i])[..|rows[i]|] == Vals(rows[i]);
      i := i + 1;
    }
  }

  /** As many values as placeholders. */
  lemma {:induction false} FlattenLength(rows: seq<seq<Field>>, i: nat)
    requires i <= |rows|
    ensures |Flatten(rows, i)| == KeyCount(rows, i)
  {
    if i > 0 {
      FlattenLength(rows, i - 1);
    }
  }

  /** Flattening more rows only extends the list. */
  lemma {:induction false} FlattenPrefix(rows: seq<seq<Field>>, i: nat, j: nat)
    requires i <= j <= |rows|
    ensures Flatten(rows, i) <= Flatten(rows, j)
    ensures RowTexts(rows, i) <= RowTexts(rows, j)
    decreases j
  {
    if i < j {
      FlattenPrefix(rows, i, j - 1);
    }
  }

  /** Placeholder `$p` binds the `p`-th value: the `k`-th placeholder of row
      `i` is numbered one past the values of the rows before it plus `k`, and
      the flattened value list holds the `k`-th value of row `i` exactly there. */
  lemma PlaceholderBinding(rows: seq<seq<Field>>, i: nat, k: nat)
    requires i < |rows| && k < |rows[i]|
    ensures var start := KeyCount(rows, i);
      && RowTexts(rows, |rows|)[i] == RowText(start, |rows[i]|)
      && Tokens(start, |rows[i]|)[k] == Token(start + k + 1)
      && start + k < |Flatten(rows, |rows|)|
      && Flatten(rows, |rows|)[start + k] == rows[i][k].val
  {
    FlattenPrefix(rows, i + 1, |rows|);
    FlattenLength(rows, i);
    FlattenLength(rows, i + 1);
  }

  /** `getUnique`: keeps the first occurrence of each item, tracking a `seen` set. */
  method GetUnique(a: seq<string>) returns (r: seq<string>)
    ensures r == Dedup(a)
  {
    var seen: set<string> := {};
    r := [];
    var i := 0;
    while i < |a|
      invariant 0 <= i <= |a|
      invariant r == Dedup(a[..i])
      invariant forall x :: x in seen <==> x in a[..i]
    {
      assert a[..i + 1][..i] == a[..i];
      if a[i] !in seen {
        seen := seen + {a[i]};
        r := r + [a[i]];
      }
      i := i + 1;
    }
    assert a[..|a|] == a;
  }

  // ---------------------------------------------------------------------
  // pick
  // ---------------------------------------------------------------------

  /** `object[key]`: reading a property of `undefined` or `null` throws; a
      plain object or array yields its own property; another primitive
      yields undefined. */
  function ReadProperty(v: Value, key: string): (r: Result<Value>)
    ensures r.Err? <==> v.Undefined? || v.Null?
  {
    match v
    case Undefined => Err("Cannot read properties of undefined (reading '" + key + "')")
    case Null => Err("Cannot read properties of null (reading '" + key + "')")
    case Obj(fields) => Ok(Get(fields, key))
    case Arr(_) => Ok(Get(FieldsOf(v), key))
    case _ => Ok(Undefined)
  }

  /** The value a successful `ReadProperty` returns. */
  function PropertyOf(v: Value, key: string): Value
  {
    if IsObjectLike(v) then Get(FieldsOf(v), key) else Undefined
  }

  /** `pick(object, keys)`: a new object with one property per key, assigned
      in key order. Reading the first key of an `undefined` or `null` row
      throws before anything is assigned. */
  function Pick(row: Value, keys: seq<string>): Result<seq<Field>>
  {
    if keys != [] && (row.Undefined? || row.Null?) then Err(ReadProperty(row, keys[0]).message)
    else Ok(PickFields(row, keys))
  }

  /** The assignments of `pick` on a row that does not throw. */
  function PickFields(row: Value, keys: seq<string>): seq<Field>
  {
    if keys == [] then []
    else Put(PickFields(row, keys[..|keys| - 1]), keys[|keys| - 1], PropertyOf(row, keys[|keys| - 1]))
  }

  /** `pick` throws exactly when there is a key to read and the row is
      `undefined` or `null`; otherwise its keys are the requested ones,
      each once in first-mention order, each holding the row's own value. */
  lemma PickShape(row: Value, keys: seq<string>)
    ensures Pick(row, keys).Err? <==> keys != [] && (row.Undefined? || row.Null?)
    ensures Pick(row, keys).Ok? ==> Keys(Pick(row, keys).value) == Dedup(keys)
    ensures Pick(row, keys).Ok? ==>
      forall k :: k in keys ==> Get(Pick(row, keys).value, k) == PropertyOf(row, k)
  {
    PickFieldsKeys(row, keys);
    PickFieldsGet(row, keys);
  }

  lemma {:induction false} PickFieldsKeys(row: Value, keys: seq<string>)
    ensures Keys(PickFields(row, keys)) == Dedup(keys)
  {
    if keys != [] {
      PickFieldsKeys(row, keys[..|keys| - 1]);
      PutKeys(PickFields(row, keys[..|keys| - 1]), keys, PropertyOf(row, keys[|keys| - 1]));
    }
  }

  /** Assigning the last of `keys` to an object whose keys are the
      de-duplicated earlier ones gives the de-duplicated `keys`. */
  lemma PutKeys(fs: seq<Field>, keys: seq<string>, v: Value)
    requires keys != [] && Keys(fs) == Dedup(keys[..|keys| - 1])
    ensures Keys(Put(fs, keys[|keys| - 1], v)) == Dedup(keys)
  {
  }

  lemma {:induction false} PickFieldsGet(row: Value, keys: seq<string>)
    ensures forall k :: k in keys ==> Get(PickFields(row, keys), k) == PropertyOf(row, k)
  {
    if keys != [] {
      PickFieldsGet(row, keys[..|keys| - 1]);
      PutGet(PickFields(row, keys[..|keys| - 1]), keys, row);
    }
  }

  /** Assigning the row's own value for the last of `keys` keeps every
      assigned key reading the row's value. */
  lemma PutGet(fs: seq<Field>, keys: seq<string>, row: Value)
    requires keys != []
    requires forall k :: k in keys[..|keys| - 1] ==> Get(fs, k) == PropertyOf(row, k)
    ensures forall k :: k in keys ==>
      Get(Put(fs, keys[|keys| - 1], PropertyOf(row, keys[|keys| - 1])), k) == PropertyOf(row, k)
  {
    var key := keys[|keys| - 1];
    assert keys == keys[..|keys| - 1] + [key];
    forall k | k in keys
      ensures Get(Put(fs, key, PropertyOf(row, key)), k) == PropertyOf(row, k)
    {
      if k != key {
        PutOther(fs, key, PropertyOf(row, key), k);
      }
    }
  }

  /** The first row at or after `i` that is `undefined` or `null`. */
  function FirstNullRow(data: seq<Value>, i: nat): (r: Option<nat>)
    requires i <= |data|
    ensures r.Some? ==> i <= r.value < |data| && (data[r.value].Undefined? || data[r.value].Null?)
    ensures r.None? ==> forall j :: i <= j < |data| ==> !(data[j].Undefined? || data[j].Null?)
    decreases |data| - i
  {
    if i == |data| then None
    else if data[i].Undefined? || data[i].Null? then Some(i)
    else FirstNullRow(data, i + 1)
  }

  /** `data.map((col) => pick(col, inserting))`: the first row that throws
      aborts the map. */
  function PickRows(data: seq<Value>, keys: seq<string>): (r: Result<seq<seq<Field>>>)
    ensures r.Err? <==> keys != [] && exists j :: 0 <= j < |data| && (data[j].Undefined? || data[j].Null?)
    ensures r.Ok? ==> |r.value| == |data|
    ensures r.Ok? ==> forall j :: 0 <= j < |data| ==> Ok(r.value[j]) == Pick(data[j], keys)
  {
    var bad := if keys == [] then None else FirstNullRow(data, 0);
    if bad.Some? then Err(Pick(data[bad.value], keys).message)
    else Ok(seq(|data|, j requires 0 <= j < |data| => PickFields(data[j], keys)))
  }

  /** With every row of the same width `w`, `i` rows hold `i * w` values. */
  lemma {:induction false} UniformKeyCount(rows: seq<seq<Field>>, i: nat, w: nat)
    requires i <= |rows|
    requires forall j :: 0 <= j < |rows| ==> |rows[j]| == w
    ensures KeyCount(rows, i) == i * w
  {
    if i > 0 {
      UniformKeyCount(rows, i - 1, w);
    }
  }

  // ---------------------------------------------------------------------
  // Fragments
  // ---------------------------------------------------------------------

  /** `createOffset`: an explicit non-zero offset wins (clamped at zero);
      otherwise a non-zero page gives `limit * (page - 1)` with `limit`
      defaulting to 24, clamped at zero; otherwise null. */
  function CreateOffset(page: Option<int>, offset: Option<int>, limit: Option<int>): (r: Option<int>)
    ensures r.Some? ==> r.value >= 0
    ensures r.None? <==> (offset.None? || offset == Some(0)) && (page.None? || page == Some(0))
    ensures offset.Some? && offset.value > 0 ==> r == offset
    ensures offset.Some? && offset.value < 0 ==> r == Some(0)
    ensures (offset.None? || offset.value == 0) && page.Some? && page.value != 0 ==>
      r == Some(Max0((if limit.Some? then limit.value else 24) * (page.value - 1)))
  {
    if offset.Some? && offset.value != 0 then
      Some(if offset.value > 0 then offset.value else 0)
    else if page.Some? && page.value != 0 then
      var lim := if limit.Some? then limit.value else 24;
      var off := lim * (page.value - 1);
      Some(if off > 0 then off else 0)
    else None
  }

  function Max0(x: int): (r: int)
    ensures r >= 0 && r >= x && (r == 0 || r == x)
  {
    if x > 0 then x else 0
  }

  /** The first page asks for offset zero, which later counts as no offset. */
  lemma FirstPageOffset(limit: Option<int>)
    ensures CreateOffset(Some(1), None, limit) == Some(0)
    ensures CreateOffset(Some(1), Some(0), limit) == Some(0)
  {
  }

  /** One line of an ORDER BY list: anything but exactly "ASC" sorts descending. */
  function OrderLine(e: OrderEntry): (r: string)
    ensures e.direction == "ASC" ==> r == "\t" + Quote(e.column)
    ensures e.direction != "ASC" ==> r == "\t" + Quote(e.column) + " DESC"
  {
    "\t\"" + e.column + "\"" + (if e.direction != "ASC" then " DESC" else "")
  }

  function OrderLines(entries: seq<OrderEntry>): (r: seq<string>)
    ensures |r| == |entries|
    ensures forall i :: 0 <= i < |entries| ==> r[i] == OrderLine(entries[i])
  {
    seq(|entries|, i requires 0 <= i < |entries| => OrderLine(entries[i]))
  }

  /** `createOrder` */
  function CreateOrder(orderBy: seq<OrderEntry>): (r: string)
    ensures r == "" <==> orderBy == []
    ensures orderBy != [] ==> StartsWith(r, "ORDER BY\n\t")
  {
    if orderBy == [] then ""
    else
      var lines := OrderLines(orderBy);
      JoinStartsWith(lines, ",\n", "\t");
      var text := Join(["ORDER BY"] + [Join(lines, ",\n")], "\n");
      assert text == "ORDER BY" + "\n" + Join(lines, ",\n");
      text
  }

  /** A join whose first part starts with `p` starts with `p`. */
  lemma JoinStartsWith(parts: seq<string>, sep: string, p: string)
    requires parts != [] && StartsWith(parts[0], p)
    ensures StartsWith(Join(parts, sep), p)
  {
    if |parts| > 1 {
      assert Join(parts, sep) == parts[0] + (sep + Join(parts[1..], sep));
    }
  }

  /** A single ORDER BY entry renders as one quoted column line. */
  lemma OrderSingle(e: OrderEntry)
    ensures CreateOrder([e]) == "ORDER BY\n" + OrderLine(e)
  {
    assert OrderLines([e]) == [OrderLine(e)];
  }

  /** One more ORDER BY entry adds ",\n" and its line at the end; with
      `OrderSingle` this fixes the text of every list. */
  lemma OrderSnoc(entries: seq<OrderEntry>, e: OrderEntry)
    requires entries != []
    ensures CreateOrder(entries + [e]) == CreateOrder(entries) + ",\n" + OrderLine(e)
  {
    assert OrderLines(entries + [e]) == OrderLines(entries) + [OrderLine(e)];
    JoinSnoc(OrderLines(entries), OrderLine(e), ",\n");
  }

  /** `createReturning`: nothing for a missing or empty name; a list is quoted
      column by column; a single string is taken verbatim. */
  function CreateReturning(returning: Option<Names>): (r: string)
    ensures r == "" <==> returning.None? || returning == Some(Name(""))
    ensures returning.Some? && returning.value.Name? && returning.value.name != "" ==>
      r == "RETURNING\n\t" + returning.value.name
    ensures returning.Some? && returning.value.NameList? ==> StartsWith(r, "RETURNING\n\t")
  {
    match returning
    case None => ""
    case Some(Name(s)) => if s == "" then "" else "RETURNING\n\t" + s
    case Some(NameList(cols)) => "RETURNING\n\t" + Join(QuoteAll(cols), ", ")
  }

  function QuoteAll(names: seq<string>): (r: seq<string>)
    ensures |r| == |names|
    ensures forall i :: 0 <= i < |names| ==> r[i] == Quote(names[i])
  {
    seq(|names|, i requires 0 <= i < |names| => Quote(names[i]))
  }

  /** A returning list is quoted, a returning string is not; an empty list
      is truthy and still yields the keyword. */
  lemma ReturningForms(col: string)
    ensures CreateReturning(Some(NameList([col]))) == "RETURNING\n\t\"" + col + "\""
    ensures CreateReturning(Some(NameList([]))) == "RETURNING\n\t"
  {
    assert QuoteAll([col]) == [Quote(col)];
  }

  /** One more returned column adds ", " and the quoted name at the end;
      with `ReturningForms` this fixes the text of every list. */
  lemma ReturningSnoc(cols: seq<string>, col: string)
    requires cols != []
    ensures CreateReturning(Some(NameList(cols + [col]))) ==
      CreateReturning(Some(NameList(cols))) + ", " + Quote(col)
  {
    assert QuoteAll(cols + [col]) == QuoteAll(cols) + [Quote(col)];
    JoinSnoc(QuoteAll(cols), Quote(col), ", ");
  }

  /** `createGroupBy`: nothing for a missing, empty-string or empty-list grouping. */
  function CreateGroupBy(groupBy: Option<Names>): (r: string)
    ensures r == "" <==> groupBy.None? || groupBy == Some(Name("")) || groupBy == Some(NameList([]))
    ensures groupBy.Some? && groupBy.value.Name? && groupBy.value.name != "" ==>
      r == "GROUP BY\n\t" + groupBy.value.name
    ensures r != "" ==> StartsWith(r, "GROUP BY\n\t")
  {
    match groupBy
    case None => ""
    case Some(Name(s)) => if s == "" then "" else "GROUP BY\n\t" + s
    case Some(NameList(cols)) =>
      if cols == [] then ""
      else
        assert |"GROUP BY\n\t" + Join(cols, ", ")| > 0;
        "GROUP BY\n\t" + Join(cols, ", ")
  }

  /** A one-column list groups exactly like the column name alone. */
  lemma GroupBySingle(col: string)
    requires col != ""
    ensures CreateGroupBy(Some(NameList([col]))) == CreateGroupBy(Some(Name(col)))
  {
  }

  /** One more grouping column adds ", " and the name at the end; with
      `GroupBySingle` this fixes the text of every list. */
  lemma GroupBySnoc(cols: seq<string>, col: string)
    requires cols != []
    ensures CreateGroupBy(Some(NameList(cols + [col]))) == CreateGroupBy(Some(NameList(cols))) + ", " + col
  {
    JoinSnoc(cols, col, ", ");
  }

  /** One join: the type (INNER when omitted), the table, then the ON condition. */
  function JoinText(j: TableJoin): (r: string)
    ensures StartsWith(r, (if j.joinType.Some? then JoinTypeText(j.joinType.value) else "INNER") + " JOIN\n\t" + j.table + "\n")
    ensures EndsWith(r, "\nON\n\t" + j.on)
  {
    var t := if j.joinType.Some? then JoinTypeText(j.joinType.value) else "INNER";
    t + " JOIN\n\t" + j.table + "\n" + "ON\n\t" + j.on
  }

  function JoinTexts(js: seq<TableJoin>): (r: seq<string>)
    ensures |r| == |js|
    ensures forall i :: 0 <= i < |js| ==> r[i] == JoinText(js[i])
  {
    seq(|js|, i requires 0 <= i < |js| => JoinText(js[i]))
  }

  /** `createJoin`: an array renders each join, one after another, on separate lines. */
  function CreateJoin(join: Option<Joins>): (r: string)
    ensures join.None? ==> r == ""
    ensures join == Some(JoinList([])) ==> r == ""
    ensures join.Some? && join.value.OneJoin? ==> r == JoinText(join.value.join)
    ensures join.Some? && join.value.JoinList? && join.value.joins != [] ==> StartsWith(r, JoinText(join.value.joins[0]))
  {
    match join
    case None => ""
    case Some(OneJoin(j)) => JoinText(j)
    case Some(JoinList(js)) => Join(JoinTexts(js), "\n")
  }

  /** A one-element list renders like the join alone, and an omitted type is INNER. */
  lemma JoinForms(j: TableJoin)
    ensures CreateJoin(Some(JoinList([j]))) == CreateJoin(Some(OneJoin(j)))
    ensures CreateJoin(Some(OneJoin(j.(joinType := None)))) ==
      CreateJoin(Some(OneJoin(j.(joinType := Some(Inner)))))
  {
    assert JoinTexts([j]) == [JoinText(j)];
  }

  /** One more join adds a line break and its text at the end; with
      `JoinForms` this fixes the text of every list. */
  lemma JoinSnocText(js: seq<TableJoin>, j: TableJoin)
    requires js != []
    ensures CreateJoin(Some(JoinList(js + [j]))) == CreateJoin(Some(JoinList(js))) + "\n" + JoinText(j)
  {
    assert JoinTexts(js + [j]) == JoinTexts(js) + [JoinText(j)];
    JoinSnoc(JoinTexts(js), JoinText(j), "\n");
  }

  /** `createSelect`: a non-empty string verbatim, a list joined by commas,
      otherwise every column. */
  function CreateSelect(select: Option<Names>): (r: string)
    ensures select.None? || select == Some(Name("")) ==> r == "*"
    ensures select == Some(NameList([])) ==> r == ""
    ensures select.Some? && select.value.Name? && select.value.name != "" ==> r == select.value.name
  {
    match select
    case None => "*"
    case Some(Name(s)) => if s == "" then "*" else s
    case Some(NameList(cols)) => Join(cols, ", ")
  }

  /** A one-column list selects exactly like the column name alone. */
  lemma SelectSingle(col: string)
    requires col != ""
    ensures CreateSelect(Some(NameList([col]))) == CreateSelect(Some(Name(col)))
  {
  }

  /** One more selected column adds ", " and the name at the end; with
      `SelectSingle` this fixes the text of every list. */
  lemma SelectSnoc(cols: seq<string>, col: string)
    requires cols != []
    ensures CreateSelect(Some(NameList(cols + [col]))) == CreateSelect(Some(NameList(cols))) + ", " + col
  {
    JoinSnoc(cols, col, ", ");
  }

  // ---------------------------------------------------------------------
  // INSERT
  // ---------------------------------------------------------------------

  /** The text, values and statement name of an INSERT. */
  datatype Insert = Insert(text: string, values: seq<Value>, name: string)

  /** `str.slice(63)`: everything after the first 63 characters. */
  function Slice63(s: string): (r: string)
    ensures |s| <= 63 ==> r == ""
    ensures |s| > 63 ==> |r| == |s| - 63 && s == s[..63] + r
  {
    if |s| <= 63 then "" else s[63..]
  }

  /** The statement lines of an INSERT: the column list, the placeholder
      groups, then the RETURNING fragment when there is one. */
  function InsertLines(inserting: seq<string>, placeholders: string, returning: string): seq<string>
  {
    ["\t(" + Join(QuoteAll(inserting), ", ") + ")", "VALUES\n\t" + placeholders]
      + (if returning != "" then [returning] else [])
  }

  /** What `createInsert` returns, with the digest function `hash` as a parameter. */
  function InsertOf(data: seq<Value>, returning: Option<Names>, tableName: string,
                    inserting: seq<string>, hash: string -> string): Result<Insert>
  {
    match PickRows(data, inserting)
    case Err(e) => Err(e)
    case Ok(rows) =>
      var ret := CreateReturning(returning);
      var text := Join(InsertLines(inserting, Join(RowTexts(rows, |rows|), ",\n\t"), ret), "\n");
      Ok(Insert(text, Flatten(rows, |rows|),
                Slice63(tableName + "-" + NatToString(|data|) + "-" + hash(ret))))
  }

  /** `createInsert` */
  method CreateInsert(data: seq<Value>, returning: Option<Names>, tableName: string,
                      inserting: seq<string>, hash: string -> string) returns (r: Result<Insert>)
    ensures r == InsertOf(data, returning, tableName, inserting, hash)
  {
    var ordered := PickRows(data, inserting);
    if ordered.Err? {
      return Err(ordered.message);
    }
    var values := FlattenArrayOfObjects(ordered.value);
    var placeholders := GeneratePlaceholders(ordered.value);
    var sql := ["\t(" + Join(QuoteAll(inserting), ", ") + ")"];
    sql := sql + ["VALUES\n\t" + placeholders];
    var ret := CreateReturning(returning);
    if ret != "" {
      sql := sql + [ret];
    }
    assert sql == InsertLines(inserting, placeholders, ret);
    var hashed := hash(ret);
    r := Ok(Insert(Join(sql, "\n"), values, Slice63(tableName + "-" + NatToString(|data|) + "-" + hashed)));
  }

  /** An INSERT binds one value per row and distinct column, and throws
      exactly when a column is to be read from an `undefined` or `null` row. */
  lemma InsertShape(data: seq<Value>, returning: Option<Names>, tableName: string,
                    inserting: seq<string>, hash: string -> string)
    ensures InsertOf(data, returning, tableName, inserting, hash).Err? <==>
      inserting != [] && exists j :: 0 <= j < |data| && (data[j].Undefined? || data[j].Null?)
    ensures InsertOf(data, returning, tableName, inserting, hash).Ok? ==>
      |InsertOf(data, returning, tableName, inserting, hash).value.values| == |data| * |Dedup(inserting)|
  {
    var rows := PickRows(data, inserting);
    if rows.Ok? {
      forall j | 0 <= j < |rows.value|
        ensures |rows.value[j]| == |Dedup(inserting)|
      {
        PickShape(data[j], inserting);
        assert |Keys(rows.value[j])| == |rows.value[j]|;
      }
      UniformKeyCount(rows.value, |data|, |Dedup(inserting)|);
      FlattenLength(rows.value, |data|);
    }
  }

  /** Names of up to 63 characters slice down to nothing, so such a statement
      falls back to a name derived from its text. */
  lemma ShortInsertName(data: seq<Value>, returning: Option<Names>, tableName: string,
                        inserting: seq<string>, hash: string -> string)
    requires |tableName + "-" + NatToString(|data|) + "-" + hash(CreateReturning(returning))| <= 63
    ensures InsertOf(data, returning, tableName, inserting, hash).Ok? ==>
      InsertOf(data, returning, tableName, inserting, hash).value.name == ""
  {
  }
}
