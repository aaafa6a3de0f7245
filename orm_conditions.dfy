/** The condition compiler: a nested, `$`-keyed filter map becomes a WHERE
    fragment and a list of positional values. Placeholders are numbered by
    the length of one value list that the whole recursion shares, plus a
    caller-supplied offset. */
module OrmConditions {

  import opened Wrappers
  import opened JsString
  import opened JsValue
  import opened OrmTypes

  /** One compiled condition. A placeholder carries its `$n` number. */
  datatype Clause =
    | Compare(lhs: string, op: string, placeholder: nat)
    | AnyOf(lhs: string, placeholder: nat)
    | IsNull(column: string)
    | Group(joiner: string, items: seq<Clause>)

  /** The clauses of one map level and the values they bind, in push order. */
  datatype Compiled = Compiled(clauses: seq<Clause>, values: seq<Value>)

  /** What `parseConditions` returns as `where`: a list of clauses, or, when
      the level was joined by a combinator, one parenthesised text. */
  datatype Parsed = Clauses(items: seq<string>) | Joined(text: string)

  /** What `createConditions` returns. */
  datatype Conditions = Conditions(conditions: string, values: seq<Value>)

  const NoConditions := Conditions("", [])

  /** The TypeError raised by reading the first key of an empty column map. */
  const NoComparatorError := "Cannot read properties of undefined (reading 'charAt')"
  const AnyOperandError := "Value of op.ANY should be an array"

  function Quote(name: string): string
  {
    "\"" + name + "\""
  }

  function Render(c: Clause): string
  {
    match c
    case Compare(lhs, op, n) => lhs + " " + op + " $" + NatToString(n)
    case AnyOf(lhs, n) => lhs + " = ANY($" + NatToString(n) + ")"
    case IsNull(column) => Quote(column) + " IS NULL"
    case Group(joiner, items) => "(" + Join(RenderAll(items), " " + joiner + " ") + ")"
  }

  function RenderAll(cs: seq<Clause>): (r: seq<string>)
    ensures |r| == |cs|
    ensures forall i :: 0 <= i < |cs| ==> r[i] == Render(cs[i])
  {
    if cs == [] then [] else RenderAll(cs[..|cs| - 1]) + [Render(cs[|cs| - 1])]
  }

  /** The placeholder numbers a clause prints, left to right. */
  function Placeholders(c: Clause): seq<nat>
  {
    match c
    case Compare(_, _, n) => [n]
    case AnyOf(_, n) => [n]
    case IsNull(_) => []
    case Group(_, items) => PlaceholdersAll(items)
  }

  function PlaceholdersAll(cs: seq<Clause>): seq<nat>
  {
    if cs == [] then [] else PlaceholdersAll(cs[..|cs| - 1]) + Placeholders(cs[|cs| - 1])
  }

  /** `[a, a + 1, ..., b - 1]` */
  function Range(a: nat, b: nat): (r: seq<nat>)
    ensures |r| == if b <= a then 0 else b - a
    decreases b
  {
    if b <= a then [] else Range(a, b - 1) + [b - 1]
  }

  lemma {:induction false} RangeSplit(a: nat, b: nat, c: nat)
    requires a <= b <= c
    ensures Range(a, b) + Range(b, c) == Range(a, c)
    decreases c
  {
    if c == b {
      assert Range(a, b) + [] == Range(a, b);
    } else {
      RangeSplit(a, b, c - 1);
      assert Range(a, b) + (Range(b, c - 1) + [c - 1]) == (Range(a, b) + Range(b, c - 1)) + [c - 1];
    }
  }

  lemma {:induction false} PlaceholdersAllAppend(xs: seq<Clause>, ys: seq<Clause>)
    ensures PlaceholdersAll(xs + ys) == PlaceholdersAll(xs) + PlaceholdersAll(ys)
    decreases |ys|
  {
    if ys == [] {
      assert xs + ys == xs;
    } else {
      var init := ys[..|ys| - 1];
      assert (xs + ys)[..|xs + ys| - 1] == xs + init;
      assert (xs + ys)[|xs + ys| - 1] == ys[|ys| - 1];
      PlaceholdersAllAppend(xs, init);
    }
  }

  /** A key that names an operator or combinator rather than a column. */
  predicate IsOperatorKey(key: string)
  {
    |key| > 0 && key[0] == '$'
  }

  /** A column reference: a qualified name (`table.column`) is used as
      written, a bare name is quoted. */
  function ColumnRef(key: string): string
  {
    if '.' in key then key else Quote(key)
  }

  /** A template literal prints a missing parent key as `undefined`. */
  function ParentText(parentKey: Option<string>): string
  {
    match parentKey
    case Some(k) => k
    case None => "undefined"
  }

  /** What one key of a condition map compiles to, given that `n` placeholders
      were used before it (shared values so far plus the offset). A nested map
      under a combinator key becomes one group; a nested map under a column
      name is compiled with that column as the parent of its operator keys. */
  function CompileEntry(f: Field, n: nat, parentKey: Option<string>): Result<Compiled>
    decreases f, 2
  {
    if f.val.Obj? then
      if IsOperatorKey(f.key) then GroupUnder(f.key, CompileMap(f.val.fields, n, None))
      else
        match NestedError(f.val.fields)
        case Some(e) => Err(e)
        case None => CompileMap(f.val.fields, n, Some(f.key))
    else CompileLeaf(f.key, f.val, n, parentKey)
  }

  /** The level compiled for a combinator, as one group joined by it. */
  function GroupUnder(key: string, child: Result<Compiled>): Result<Compiled>
  {
    match child
    case Err(e) => Err(e)
    case Ok(c) => Ok(Compiled([Group(OperationTextOf(key), c.clauses)], c.values))
  }

  /** A nested map under a column name must start with an operator key. */
  function NestedError(fields: seq<Field>): (r: Option<string>)
    ensures r.None? <==> fields != [] && IsOperatorKey(fields[0].key)
  {
    if fields == [] then Some(NoComparatorError)
    else if IsOperatorKey(fields[0].key) then None
    else Some("Key \"" + fields[0].key + "\" cannot be used as a comparator")
  }

  /** A key whose value is not a nested map: an operator applied to the parent
      column, an `IS NULL` test, an equality, or nothing for undefined. Each
      binds at most one value, which is the key's own value. */
  function CompileLeaf(key: string, value: Value, n: nat, parentKey: Option<string>): Result<Compiled>
    requires !value.Obj?
  {
    if IsOperatorKey(key) then CompileOperator(key, value, n, parentKey)
    else if value.Null? then Ok(Compiled([IsNull(key)], []))
    else if !value.Undefined? then Ok(Compiled([Compare(ColumnRef(key), "=", n + 1)], [value]))
    else Ok(Compiled([], []))
  }

  /** The operator keys a leaf accepts: a comparison, `$LIKE`, or `$ANY`
      with an array. */
  predicate SupportedOperand(op: Option<Operation>, value: Value)
  {
    op.Some? && (IsComparison(op.value) || op.value == Like || (op.value == Any && value.Arr?))
  }

  /** A leaf binds at most one value, the key's own, in at most one clause
      numbered `$(n+1)`; it fails exactly for an unknown operator or a
      non-array `$ANY`; a column key is dropped only when undefined and binds
      no value only when undefined or null. */
  lemma LeafShape(key: string, value: Value, n: nat, parentKey: Option<string>)
    requires !value.Obj?
    ensures var r := CompileLeaf(key, value, n, parentKey);
      && (r.Ok? ==> |r.value.values| <= 1 && |r.value.clauses| <= 1)
      && (r.Ok? && |r.value.values| == 1 ==> r.value.values == [value])
      && (r.Ok? ==> PlaceholdersAll(r.value.clauses) == Range(n + 1, n + 1 + |r.value.values|))
      && (r.Err? <==> IsOperatorKey(key) && !SupportedOperand(OperationOf(key), value))
      && (!IsOperatorKey(key) ==> (r.value.clauses == [] <==> value.Undefined?))
      && (!IsOperatorKey(key) ==> (r.value.values == [] <==> value.Undefined? || value.Null?))
  {
    var r := CompileLeaf(key, value, n, parentKey);
    if r.Ok? && |r.value.clauses| == 1 {
      assert PlaceholdersAll(r.value.clauses) == PlaceholdersAll([]) + Placeholders(r.value.clauses[0]);
    }
  }

  /** An operator key applied to the parent column: the `switch` over the
      comparison, `$ANY` and `$LIKE` members of `EOperations`. */
  function CompileOperator(key: string, value: Value, n: nat, parentKey: Option<string>): Result<Compiled>
  {
    var lhs := Quote(ParentText(parentKey));
    var op := OperationOf(key);
    if op.Some? && IsComparison(op.value) then Ok(Compiled([Compare(lhs, OperationText(op.value), n + 1)], [value]))
    else if op == Some(Any) then
      if value.Arr? then Ok(Compiled([AnyOf(lhs, n + 1)], [value])) else Err(AnyOperandError)
    else if op == Some(Like) then Ok(Compiled([Compare(lhs, "LIKE", n + 1)], [value]))
    else Err("Comparator \"" + key + "\" is not supported")
  }

  /** The keys of one map level, compiled in order; the first error wins. */
  function CompileMap(fs: seq<Field>, n: nat, parentKey: Option<string>): Result<Compiled>
    decreases fs, 1
  {
    CompileUpTo(fs, |fs|, n, parentKey)
  }

  /** The first `i` keys of a level. */
  function CompileUpTo(fs: seq<Field>, i: nat, n: nat, parentKey: Option<string>): Result<Compiled>
    requires i <= |fs|
    decreases fs, 0, i
  {
    if i == 0 then Ok(Compiled([], []))
    else
      match CompileUpTo(fs, i - 1, n, parentKey)
      case Err(e) => Err(e)
      case Ok(prev) => Append(prev, CompileEntry(fs[i - 1], n + |prev.values|, parentKey))
  }

  /** The keys so far followed by the result of one more key. */
  function Append(prev: Compiled, next: Result<Compiled>): Result<Compiled>
  {
    match next
    case Err(e) => Err(e)
    case Ok(last) => Ok(Compiled(prev.clauses + last.clauses, prev.values + last.values))
  }

  /** Compiling one more key extends the keys so far by that key's result. */
  lemma UpToUnfold(fs: seq<Field>, i: nat, n: nat, m: nat, parentKey: Option<string>, prev: Compiled)
    requires i < |fs| && CompileUpTo(fs, i, n, parentKey) == Ok(prev) && m == n + |prev.values|
    ensures CompileUpTo(fs, i + 1, n, parentKey) == Append(prev, CompileEntry(fs[i], m, parentKey))
  {
  }

  /** The placeholders of compiled keys are `$(n+1)`, `$(n+2)`, ... in print
      order, one per bound value: the k-th placeholder binds the k-th value. */
  lemma {:induction false} UpToNumbering(fs: seq<Field>, i: nat, n: nat, parentKey: Option<string>, c: Compiled)
    requires i <= |fs| && CompileUpTo(fs, i, n, parentKey) == Ok(c)
    ensures PlaceholdersAll(c.clauses) == Range(n + 1, n + 1 + |c.values|)
    decreases fs, 0, i
  {
    if i > 0 {
      var prev, last := UpToSplit(fs, i, n, parentKey, c);
      UpToNumbering(fs, i - 1, n, parentKey, prev);
      assert fs[i - 1] in fs;
      var m := n + |prev.values|;
      EntryNumbering(fs[i - 1], m, parentKey, last);
      NumberingConcat(prev, last, c, n, m);
    } else {
      assert c == Compiled([], []);
    }
  }

  /** A successful prefix is the prefix one shorter followed by the last key. */
  lemma UpToSplit(fs: seq<Field>, i: nat, n: nat, parentKey: Option<string>, c: Compiled)
    returns (prev: Compiled, last: Compiled)
    requires 0 < i <= |fs| && CompileUpTo(fs, i, n, parentKey) == Ok(c)
    ensures CompileUpTo(fs, i - 1, n, parentKey) == Ok(prev)
    ensures CompileEntry(fs[i - 1], n + |prev.values|, parentKey) == Ok(last)
    ensures c == Compiled(prev.clauses + last.clauses, prev.values + last.values)
  {
    prev := CompileUpTo(fs, i - 1, n, parentKey).value;
    last := CompileEntry(fs[i - 1], n + |prev.values|, parentKey).value;
  }

  lemma {:induction false} EntryNumbering(f: Field, n: nat, parentKey: Option<string>, c: Compiled)
    requires CompileEntry(f, n, parentKey) == Ok(c)
    ensures PlaceholdersAll(c.clauses) == Range(n + 1, n + 1 + |c.values|)
    decreases f, 2
  {
    if f.val.Obj? {
      var fields := f.val.fields;
      if IsOperatorKey(f.key) {
        var child := CompileMap(fields, n, None).value;
        UpToNumbering(fields, |fields|, n, None, child);
        GroupNumbering(f.key, child, c, n);
      } else {
        UpToNumbering(fields, |fields|, n, Some(f.key), c);
      }
    } else {
      LeafShape(f.key, f.val, n, parentKey);
    }
  }

  /** A group numbers its placeholders as its items do. */
  lemma GroupNumbering(key: string, child: Compiled, c: Compiled, n: nat)
    requires PlaceholdersAll(child.clauses) == Range(n + 1, n + 1 + |child.values|)
    requires c == Compiled([Group(OperationTextOf(key), child.clauses)], child.values)
    ensures PlaceholdersAll(c.clauses) == Range(n + 1, n + 1 + |c.values|)
  {
    assert PlaceholdersAll(c.clauses) == PlaceholdersAll([]) + Placeholders(c.clauses[0]);
  }

  /** Two consecutively numbered runs concatenate to one. */
  lemma NumberingConcat(prev: Compiled, last: Compiled, c: Compiled, n: nat, m: nat)
    requires m == n + |prev.values| && c == Compiled(prev.clauses + last.clauses, prev.values + last.values)
    requires PlaceholdersAll(prev.clauses) == Range(n + 1, n + 1 + |prev.values|)
    requires PlaceholdersAll(last.clauses) == Range(m + 1, m + 1 + |last.values|)
    ensures PlaceholdersAll(c.clauses) == Range(n + 1, n + 1 + |c.values|)
  {
    PlaceholdersAllAppend(prev.clauses, last.clauses);
    RangeSplit(n + 1, m + 1, m + 1 + |last.values|);
  }

  /** A compiled level binds exactly as many values as it prints placeholders,
      numbered consecutively from `n + 1`. */
  lemma MapNumbering(fs: seq<Field>, n: nat, parentKey: Option<string>)
    requires CompileMap(fs, n, parentKey).Ok?
    ensures var c := CompileMap(fs, n, parentKey).value;
      PlaceholdersAll(c.clauses) == Range(n + 1, n + 1 + |c.values|)
  {
    UpToNumbering(fs, |fs|, n, parentKey, CompileMap(fs, n, parentKey).value);
  }

  /** Once the first `i` keys fail, every longer prefix fails with that error. */
  lemma {:induction false} ErrorPropagates(fs: seq<Field>, i: nat, j: nat, n: nat, parentKey: Option<string>)
    requires i <= j <= |fs|
    requires CompileUpTo(fs, i, n, parentKey).Err?
    ensures CompileUpTo(fs, j, n, parentKey) == CompileUpTo(fs, i, n, parentKey)
    decreases j
  {
    if i < j {
      ErrorPropagates(fs, i, j - 1, n, parentKey);
    }
  }

  /** `createConditions`: the WHERE fragment and its values. */
  function WhereClause(where: Option<seq<Field>>, offset: nat): Result<Conditions>
  {
    match where
    case None => Ok(NoConditions)
    case Some(fs) =>
      match CompileMap(fs, offset, None)
      case Err(e) => Err(e)
      case Ok(c) =>
        if c.clauses == [] then Ok(NoConditions)
        else Ok(Conditions("WHERE\n\t" + Join(RenderAll(c.clauses), " AND "), c.values))
  }

  /** The values returned with a WHERE fragment are exactly the values of its
      placeholders, `$(offset+1)` onwards; no fragment means no values. */
  lemma WhereValues(fs: seq<Field>, offset: nat)
    requires CompileMap(fs, offset, None).Ok?
    ensures var c := CompileMap(fs, offset, None).value;
      && WhereClause(Some(fs), offset).Ok?
      && WhereClause(Some(fs), offset).value.values == c.values
      && PlaceholdersAll(c.clauses) == Range(offset + 1, offset + 1 + |c.values|)
  {
    MapNumbering(fs, offset, None);
  }

  /** An absent or empty condition map yields no fragment and no values. */
  lemma AbsentWhere(offset: nat)
    ensures WhereClause(None, offset) == Ok(NoConditions)
    ensures WhereClause(Some([]), offset) == Ok(NoConditions)
  {
  }

  /** A map whose every value is undefined yields no fragment and no values. */
  lemma AllUndefinedWhere(fs: seq<Field>, offset: nat)
    requires forall i :: 0 <= i < |fs| ==> fs[i].val.Undefined? && !IsOperatorKey(fs[i].key)
    ensures WhereClause(Some(fs), offset) == Ok(NoConditions)
  {
    AllUndefinedUpTo(fs, |fs|, offset);
  }

  lemma {:induction false} AllUndefinedUpTo(fs: seq<Field>, i: nat, n: nat)
    requires i <= |fs|
    requires forall k :: 0 <= k < |fs| ==> fs[k].val.Undefined? && !IsOperatorKey(fs[k].key)
    ensures CompileUpTo(fs, i, n, None) == Ok(Compiled([], []))
  {
    if i > 0 {
      AllUndefinedUpTo(fs, i - 1, n);
      UpToUnfold(fs, i - 1, n, n, None, Compiled([], []));
      assert CompileEntry(fs[i - 1], n, None) == Ok(Compiled([], []));
      assert Compiled([] + [], [] + []) == Compiled([], []);
    }
  }

  lemma RenderAllAppend(xs: seq<Clause>, ys: seq<Clause>)
    ensures RenderAll(xs + ys) == RenderAll(xs) + RenderAll(ys)
  {
    assert |RenderAll(xs + ys)| == |RenderAll(xs) + RenderAll(ys)|;
    forall i | 0 <= i < |xs + ys|
      ensures RenderAll(xs + ys)[i] == (RenderAll(xs) + RenderAll(ys))[i]
    {
      if i < |xs| {
        assert (xs + ys)[i] == xs[i];
      } else {
        assert (xs + ys)[i] == ys[i - |xs|];
      }
    }
  }

  /** The rendered clauses of a step agree with its specification, and the
      shared list grew by exactly the values it binds. */
  ghost predicate Agrees(part: Result<seq<string>>, spec: Result<Compiled>, before: seq<Value>, after: seq<Value>)
  {
    match spec
    case Err(e) => part == Err(e)
    case Ok(c) => part == Ok(RenderAll(c.clauses)) && after == before + c.values
  }

  /** The mutable value list that one compilation shares across its recursion. */
  class ValueList {
    var items: seq<Value>

    constructor ()
      ensures items == []
    {
      items := [];
    }
  }

  /** `parseConditions` on a key whose value is not a nested map. */
  method ParseLeaf(key: string, value: Value, values: ValueList, offset: nat, parentKey: Option<string>)
    returns (r: Result<seq<string>>)
    requires !value.Obj?
    modifies values
    ensures Agrees(r, CompileLeaf(key, value, |old(values.items)| + offset, parentKey), old(values.items), values.items)
  {
    ghost var n := |values.items| + offset;
    if IsOperatorKey(key) {
      r := ParseOperator(key, value, values, offset, parentKey);
    } else if value.Null? {
      r := Ok([Quote(key) + " IS NULL"]);
      assert RenderAll([IsNull(key)]) == r.value;
    } else if !value.Undefined? {
      values.items := values.items + [value];
      var condition := ColumnRef(key);
      condition := condition + " = $" + NatToString(|values.items| + offset);
      r := Ok([condition]);
      assert " " + "=" + " $" == " = $";
      assert ColumnRef(key) + " " + "=" + " $" == ColumnRef(key) + (" " + "=" + " $");
      assert RenderAll([Compare(ColumnRef(key), "=", n + 1)]) == r.value;
    } else {
      r := Ok([]);
    }
  }

  /** The `switch` of `parseConditions` over an operator key. */
  method ParseOperator(key: string, value: Value, values: ValueList, offset: nat, parentKey: Option<string>)
    returns (r: Result<seq<string>>)
    modifies values
    ensures Agrees(r, CompileOperator(key, value, |old(values.items)| + offset, parentKey), old(values.items), values.items)
  {
    ghost var n := |values.items| + offset;
    ghost var before := values.items;
    var column := Quote(ParentText(parentKey));
    var op := OperationOf(key);
    if op.Some? && IsComparison(op.value) {
      ghost var clause := Compare(column, OperationText(op.value), n + 1);
      assert CompileOperator(key, value, n, parentKey) == Ok(Compiled([clause], [value]));
      values.items := values.items + [value];
      r := Ok([column + " " + OperationText(op.value) + " $" + NatToString(|values.items| + offset)]);
      SingleAgrees(r, clause, value, before, values.items);
    } else if op == Some(Any) {
      if !value.Arr? {
        return Err(AnyOperandError);
      }
      ghost var clause := AnyOf(column, n + 1);
      assert CompileOperator(key, value, n, parentKey) == Ok(Compiled([clause], [value]));
      values.items := values.items + [value];
      r := Ok([column + " = ANY($" + NatToString(|values.items| + offset) + ")"]);
      SingleAgrees(r, clause, value, before, values.items);
    } else if op == Some(Like) {
      ghost var clause := Compare(column, "LIKE", n + 1);
      assert CompileOperator(key, value, n, parentKey) == Ok(Compiled([clause], [value]));
      values.items := values.items + [value];
      r := Ok([column + " LIKE $" + NatToString(|values.items| + offset)]);
      assert " " + "LIKE" + " $" == " LIKE $";
      assert column + " " + "LIKE" + " $" == column + (" " + "LIKE" + " $");
      SingleAgrees(r, clause, value, before, values.items);
    } else {
      r := Err("Comparator \"" + key + "\" is not supported");
    }
  }

  /** A step that prints one clause and pushes one value agrees with a
      specification that compiles to exactly that clause and value. */
  lemma SingleAgrees(r: Result<seq<string>>, clause: Clause, value: Value, before: seq<Value>, after: seq<Value>)
    requires r == Ok([Render(clause)]) && after == before + [value]
    ensures Agrees(r, Ok(Compiled([clause], [value])), before, after)
  {
    assert RenderAll([clause]) == [Render(clause)];
  }

  /** `parseConditions`: compiles one map level, pushing every bound value
      onto the shared list; a level compiled for a combinator is joined by
      that combinator and parenthesised. */
  method ParseConditions(where: seq<Field>, values: ValueList, offset: nat,
                         parentKey: Option<string>, compareBy: Option<string>)
    returns (r: Result<Parsed>)
    modifies values
    decreases where, 2
    ensures match CompileMap(where, |old(values.items)| + offset, parentKey)
      case Err(e) => r == Err(e)
      case Ok(c) =>
        && values.items == old(values.items) + c.values
        && r == Ok(match compareBy
                   case None => Clauses(RenderAll(c.clauses))
                   case Some(op) => Joined(Render(Group(OperationTextOf(op), c.clauses))))
  {
    var total := ParseLevel(where, values, offset, parentKey);
    if total.Err? {
      return Err(total.message);
    }
    match compareBy {
      case None => r := Ok(Clauses(total.value));
      case Some(op) => r := Ok(Joined("(" + Join(total.value, " " + OperationTextOf(op) + " ") + ")"));
    }
  }

  /** The `reduce` of `parseConditions` over the keys of one level. */
  method ParseLevel(where: seq<Field>, values: ValueList, offset: nat, parentKey: Option<string>)
    returns (r: Result<seq<string>>)
    modifies values
    decreases where, 1
    ensures Agrees(r, CompileUpTo(where, |where|, |old(values.items)| + offset, parentKey), old(values.items), values.items)
  {
    ghost var acc := Compiled([], []);
    var total: seq<string> := [];
    var i := 0;
    while i < |where|
      invariant 0 <= i <= |where|
      invariant CompileUpTo(where, i, |old(values.items)| + offset, parentKey) == Ok(acc)
      invariant total == RenderAll(acc.clauses)
      invariant values.items == old(values.items) + acc.values
    {
      var step;
      ghost var next;
      step, next := ParseNext(where, i, values, offset, parentKey, total, |old(values.items)| + offset, old(values.items), acc);
      if step.Err? {
        return step;
      }
      total := step.value;
      acc := next;
      i := i + 1;
    }
    LevelDone(where, |old(values.items)| + offset, parentKey, acc, total, old(values.items), values.items);
    return Ok(total);
  }

  /** A level whose every key compiled agrees with the level's specification. */
  lemma LevelDone(fs: seq<Field>, n: nat, parentKey: Option<string>, acc: Compiled,
                  total: seq<string>, start: seq<Value>, after: seq<Value>)
    requires CompileUpTo(fs, |fs|, n, parentKey) == Ok(acc)
    requires total == RenderAll(acc.clauses) && after == start + acc.values
    ensures Agrees(Ok(total), CompileUpTo(fs, |fs|, n, parentKey), start, after)
  {
  }

  /** One step of the `reduce`: the clauses so far, `total`, followed by
      those of the key at `i`. */
  method ParseNext(where: seq<Field>, i: nat, values: ValueList, offset: nat, parentKey: Option<string>,
                   total: seq<string>, ghost n: nat, ghost start: seq<Value>, ghost acc: Compiled)
    returns (step: Result<seq<string>>, ghost next: Compiled)
    requires i < |where| && CompileUpTo(where, i, n, parentKey) == Ok(acc) && total == RenderAll(acc.clauses)
    requires values.items == start + acc.values && n == |start| + offset
    modifies values
    decreases where, 0
    ensures step.Err? ==> Agrees(step, CompileUpTo(where, |where|, n, parentKey), start, values.items)
    ensures step.Ok? ==> && CompileUpTo(where, i + 1, n, parentKey) == Ok(next)
                         && step.value == RenderAll(next.clauses)
                         && values.items == start + next.values
  {
    ghost var before := values.items;
    ghost var m := |values.items| + offset;
    assert m == n + |acc.values|;
    ghost var spec := CompileEntry(where[i], m, parentKey);
    var part := ParseEntry(where[i], values, offset, parentKey);
    if part.Err? {
      StepError(where, i, n, m, parentKey, acc, part.message);
      return Err(part.message), acc;
    }
    next := StepOk(where, i, n, m, parentKey, acc, spec.value, part.value, start, before, values.items);
    step := Ok(total + part.value);
  }

  /** A key that fails makes its whole level fail with the same error. */
  lemma StepError(fs: seq<Field>, i: nat, n: nat, m: nat, parentKey: Option<string>, acc: Compiled, e: string)
    requires i < |fs| && CompileUpTo(fs, i, n, parentKey) == Ok(acc)
    requires m == n + |acc.values| && CompileEntry(fs[i], m, parentKey) == Err(e)
    ensures CompileUpTo(fs, |fs|, n, parentKey) == Err(e)
  {
    UpToUnfold(fs, i, n, m, parentKey, acc);
    ErrorPropagates(fs, i + 1, |fs|, n, parentKey);
  }

  /** A key that compiles extends the keys before it by its clauses and
      values: the rendered clauses so far grow by the key's rendered clauses,
      and the shared value list by the key's values. */
  lemma StepOk(fs: seq<Field>, i: nat, n: nat, m: nat, parentKey: Option<string>, acc: Compiled, last: Compiled,
               part: seq<string>, start: seq<Value>, before: seq<Value>, after: seq<Value>)
    returns (next: Compiled)
    requires i < |fs| && CompileUpTo(fs, i, n, parentKey) == Ok(acc)
    requires m == n + |acc.values| && CompileEntry(fs[i], m, parentKey) == Ok(last)
    requires part == RenderAll(last.clauses) && before == start + acc.values && after == before + last.values
    ensures CompileUpTo(fs, i + 1, n, parentKey) == Ok(next)
    ensures RenderAll(next.clauses) == RenderAll(acc.clauses) + part
    ensures after == start + next.values
  {
    UpToUnfold(fs, i, n, m, parentKey, acc);
    next := Extend(acc, last, part, start, before, after);
  }

  /** Appending one key's compiled result to the keys so far. */
  lemma Extend(acc: Compiled, last: Compiled, part: seq<string>, start: seq<Value>, before: seq<Value>, after: seq<Value>)
    returns (next: Compiled)
    requires part == RenderAll(last.clauses) && before == start + acc.values && after == before + last.values
    ensures next == Compiled(acc.clauses + last.clauses, acc.values + last.values)
    ensures RenderAll(next.clauses) == RenderAll(acc.clauses) + part
    ensures after == start + next.values
  {
    RenderAllAppend(acc.clauses, last.clauses);
    next := Compiled(acc.clauses + last.clauses, acc.values + last.values);
    assert start + acc.values + last.values == start + (acc.values + last.values);
  }

  /** The body of the `reduce` for one key. */
  method ParseEntry(f: Field, values: ValueList, offset: nat, parentKey: Option<string>)
    returns (r: Result<seq<string>>)
    modifies values
    decreases f, 3
    ensures Agrees(r, CompileEntry(f, |old(values.items)| + offset, parentKey), old(values.items), values.items)
  {
    var key := f.key;
    var value := f.val;
    if !value.Obj? {
      r := ParseLeaf(key, value, values, offset, parentKey);
    } else if IsOperatorKey(key) {
      var child := ParseConditions(value.fields, values, offset, None, Some(key));
      if child.Err? {
        return Err(child.message);
      }
      r := Ok([child.value.text]);
      ghost var c := CompileMap(value.fields, |old(values.items)| + offset, None).value;
      assert RenderAll([Group(OperationTextOf(key), c.clauses)]) == r.value;
    } else if |value.fields| == 0 {
      r := Err(NoComparatorError);
    } else if IsOperatorKey(value.fields[0].key) {
      var child := ParseConditions(value.fields, values, offset, Some(key), None);
      if child.Err? {
        return Err(child.message);
      }
      r := Ok(child.value.items);
    } else {
      r := Err("Key \"" + value.fields[0].key + "\" cannot be used as a comparator");
    }
  }

  /** `createConditions`: compiles a whole condition map starting at `$(offset+1)`. */
  method CreateConditions(where: Option<seq<Field>>, offset: nat) returns (r: Result<Conditions>)
    ensures r == WhereClause(where, offset)
  {
    if where.None? {
      return Ok(NoConditions);
    }
    var values := new ValueList();
    var parsed := ParseConditions(where.value, values, offset, None, None);
    if parsed.Err? {
      return Err(parsed.message);
    }
    ghost var c := CompileMap(where.value, offset, None).value;
    var items := parsed.value.items;
    assert |items| == |c.clauses|;
    if |items| == 0 {
      MapNumbering(where.value, offset, None);
      return Ok(NoConditions);
    }
    var joined := Join(items, " AND ");
    r := Ok(Conditions("WHERE\n\t" + joined, values.items));
    assert values.items == c.values;
    assert items == RenderAll(c.clauses);
  }
}
