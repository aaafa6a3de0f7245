# stonks: the PostgreSQL data-access layer, in Dafny

This project models the hand-written data-access layer of the stonks server and the small pure helpers around it. It states and proves what that code promises.

- **Condition compiler and clause builders** (`orm/utils.ts`): the compiler turns a nested, `$`-keyed filter map into a `WHERE` fragment plus a positional value list. The builders cover `OFFSET`, `ORDER BY`, `RETURNING`, `GROUP BY`, `JOIN`, the select list, the bulk `INSERT`, and the recursive differ that sorts differences into add, remove and update.
- **Entity class `Model`** (`orm/Model.ts`): a class whose fields are the table name, the schema and the seed data. `define()` generates DDL. `find`, `findOne`, `findById`, `create`, `bulkCreate`, `update`, `deleteById`, `delete` and `seed` assemble SQL text and value lists and hand them to an executor.
- **Database class `DB`** (`orm/db.ts`):
  - `init` issues DDL in a fixed order, then seeds every model;
  - `transact` follows the BEGIN/COMMIT/ROLLBACK protocol and releases the client once;
  - `migrate` normalises the declared columns in place and the live catalog rows into one shape, then diffs the two;
  - it also holds the mapping of catalog codes (`getColumnType`, `onActionType`).
- **Smaller pieces**:
  - the selector search over parsed HTML trees (`utils/dom.ts`);
  - the filing-name classifier and report table (`entities/Filings/utils.ts`);
  - the database-error formatter (`utils/index.ts`);
  - the left fold `pipe` (`packages/common/index.ts`).

JavaScript values are the datatype `JsValue.Value`: `Undefined | Null | Bool | Num | Str | Arr | Obj`. An object is an ordered list of fields, so output order follows insertion order.

Statements go through `OrmExecutor.Executor`, a class standing in for the `pg` client. It records every statement it is sent in the field `issued` and counts releases. What the server answers is a function `respond` of the statement's position in that log. This lets every awaited sequence (`init`, `transact`, `seed`) be stated as a trace: the statements sent, and the outcome.

The md5 `hashString` and `JSON.stringify` are function parameters, because their exact outputs do not matter to any property here.

Modules, one per source file or concern:

| module | file | models |
|---|---|---|
| `Wrappers` | wrappers.dfy | `Option` and `Result` |
| `JsString` | js_string.dfy | `join`, number-to-text, `indexOf`, `trim`, `toLowerCase` |
| `JsValue` | js_value.dfy | JavaScript values, property reads, `??`, assignment, `delete`, spread |
| `OrmTypes` | orm_types.dfy | `orm/types.ts` |
| `OrmBuilders` | orm_builders.dfy | the clause builders and bulk insert of `orm/utils.ts` |
| `OrmConditions` | orm_conditions.dfy | `parseConditions`, `createConditions` |
| `OrmDiff` | orm_diff.dfy | `mergeDiff`, `diffObjects` |
| `OrmDefine` | orm_define.dfy | `columns()` and `define()` of `orm/Model.ts` |
| `OrmExecutor` | orm_executor.dfy | the statement executor of `orm/connection.ts` |
| `OrmModel` | orm_model.dfy | class `Model` |
| `OrmRun` | orm_run.dfy | the awaited statement sequences of `init` and `transact` |
| `OrmDb` | orm_db.dfy | class `DB` and the `migrate` normalisation |
| `Dom` | dom.dfy | `utils/dom.ts` |
| `Filings` | filings.dfy | `entities/Filings/utils.ts` |
| `ErrorFormat` | error_format.dfy | `utils/index.ts` |
| `Pipe` | pipe.dfy | `packages/common/index.ts` |

## Model

| member | source | states |
|---|---|---|
| OrmTypes.OperationOf | packages/server/src/orm/types.ts:63-73 | a `$` key maps to an operation only when that operation's key is exactly the given key |
| OrmTypes.OperationOfKey | packages/server/src/orm/types.ts:63-75 | the nine `EOperations` keys and their operations are in one-to-one correspondence; a key outside the nine maps to nothing |
| OrmTypes.FindIndex | packages/server/src/orm/types.ts:63-73 | looking up an operation's own key finds that operation |
| OrmTypes.ColumnNames | packages/server/src/orm/types.ts:30-32 | the column names of a schema are its keys, in declaration order |
| JsValue.Coalesce | packages/server/src/orm/utils.ts:73-74 | `v ?? null` is never undefined and leaves every other value unchanged |
| JsValue.Put | packages/server/src/orm/db.ts:317-324 | assigning a property keeps the key order, appends a new key last, and the property then reads back as the assigned value |
| JsValue.PutOther | packages/server/src/orm/db.ts:317-324 | assigning one property leaves every other property's value unchanged |
| JsValue.Remove | packages/server/src/orm/db.ts:254-257 | `delete o[k]` keeps exactly the fields with another key |
| JsValue.GetRemove | packages/server/src/orm/db.ts:254-257 | after `delete o[k]`, `k` reads as undefined and every other key reads as before |
| JsValue.GetSpread | packages/server/src/orm/db.ts:243-251 | in `{...base, ...fs}`, a key of `fs` reads from `fs` and any other key reads from `base` |
| JsValue.Dedup | packages/server/src/orm/utils.ts:33-39 | the first-occurrence list has exactly the members of the input and is no longer |
| JsValue.DedupIsDistinct | packages/server/src/orm/utils.ts:33-39 | the first-occurrence list repeats nothing |
| JsValue.DedupDistinct | packages/server/src/orm/utils.ts:33-39 | a list without repeats is its own first-occurrence list |
| JsValue.DedupPrefix | packages/server/src/orm/utils.ts:33-39 | later elements never reorder earlier ones: deduplicating a prefix gives a prefix of the whole deduplication, so with `Dedup` and `DedupIsDistinct` the order is exactly that of first occurrence |
| JsValue.UnionKeys | packages/server/src/orm/utils.ts:70 | the keys visited by `diffObjects` are exactly the keys of either object |
| JsValue.UnionKeysOrder | packages/server/src/orm/utils.ts:70 | the first object's keys come first, in their own order |
| JsValue.FieldsOf | packages/server/src/orm/utils.ts:70 | an array is read as an object whose keys are its indices as text, in order |
| JsValue.GetSnoc | packages/server/src/orm/utils.ts:70 | reading a key after appending a field finds the earlier field when there is one, else the appended field |
| OrmBuilders.Tokens | packages/server/src/orm/utils.ts:12-18 | a row of length `len` after `start` earlier values holds `$start+1`..`$start+len`, in order |
| OrmBuilders.RowTexts | packages/server/src/orm/utils.ts:8-21 | there is one parenthesised group per row |
| OrmBuilders.Vals | packages/server/src/orm/utils.ts:23-31 | one row's values, in key order |
| OrmBuilders.GeneratePlaceholders | packages/server/src/orm/utils.ts:8-21 | the loop with its shared counter produces the row groups joined by `",\n\t"` |
| OrmBuilders.FlattenArrayOfObjects | packages/server/src/orm/utils.ts:23-31 | the loop produces every row's values in row-major key order |
| OrmBuilders.FlattenLength | packages/server/src/orm/utils.ts:8-31 | the flattened list has one value per key over all rows, which is the number of placeholders |
| OrmBuilders.FlattenPrefix | packages/server/src/orm/utils.ts:8-31 | processing more rows only extends both the value list and the placeholder groups |
| OrmBuilders.PlaceholderBinding | packages/server/src/orm/utils.ts:8-31 | the k-th placeholder of row i is `$(start+k+1)`, and the value at that position of the flattened list is row i's k-th value |
| OrmBuilders.GetUnique | packages/server/src/orm/utils.ts:33-39 | the loop with its `seen` set returns `Dedup` of its input: each string once, in order of first occurrence (`JsValue.DedupPrefix`) |
| OrmBuilders.ReadProperty | packages/server/src/orm/utils.ts:110-115 | reading a property fails exactly on undefined and null |
| OrmBuilders.PickShape | packages/server/src/orm/utils.ts:110-115 | `pick` throws exactly when there is a key and the row is undefined or null; otherwise it has each requested key once, in order, reading what the row reads |
| OrmBuilders.PickFieldsKeys | packages/server/src/orm/utils.ts:110-115 | the picked object's keys are the requested keys without repeats |
| OrmBuilders.PickFieldsGet | packages/server/src/orm/utils.ts:110-115 | every requested key of the picked object reads what the row reads, undefined included |
| OrmBuilders.FirstNullRow | packages/server/src/orm/utils.ts:322 | finds the first undefined or null row from a position, or reports that there is none |
| OrmBuilders.PickRows | packages/server/src/orm/utils.ts:322 | projecting all rows fails exactly when there is a key and some row is undefined or null; otherwise row j is `pick` of data j |
| OrmBuilders.UniformKeyCount | packages/server/src/orm/utils.ts:8-31 | rows of equal width w give i × w values over the first i rows |
| OrmBuilders.CreateOffset | packages/server/src/orm/utils.ts:41-55 | the offset is never negative. It is absent exactly when offset and page are both absent or 0. A positive offset wins. A negative offset gives 0. Otherwise a non-zero page p gives max(limit × (p − 1), 0), with limit 24 when absent |
| OrmBuilders.FirstPageOffset | packages/server/src/orm/utils.ts:41-55 | page 1 gives offset 0, with or without an explicit zero offset |
| OrmBuilders.OrderLine | packages/server/src/orm/utils.ts:298-303 | ` DESC` is appended for any direction other than exactly `ASC` |
| OrmBuilders.OrderLines | packages/server/src/orm/utils.ts:291-307 | one line per order entry, in order |
| OrmBuilders.CreateOrder | packages/server/src/orm/utils.ts:291-307 | the clause is empty exactly when there are no entries, and otherwise starts with `ORDER BY` |
| OrmBuilders.OrderSingle | packages/server/src/orm/utils.ts:291-307 | a single entry gives `ORDER BY` followed by that entry's line |
| OrmBuilders.OrderSnoc | packages/server/src/orm/utils.ts:291-307 | one more entry appends `",\n"` and its line; with `OrderSingle` this fixes the clause for every list |
| OrmBuilders.CreateReturning | packages/server/src/orm/utils.ts:344-356 | the clause is empty exactly for an absent or empty name; a plain name is emitted unquoted after `RETURNING`; a list always starts with `RETURNING` |
| OrmBuilders.QuoteAll | packages/server/src/orm/utils.ts:349-350 | every column of a list is double-quoted, in order |
| OrmBuilders.ReturningForms | packages/server/src/orm/utils.ts:344-356 | a list is emitted quoted, and an empty list still emits the keyword |
| OrmBuilders.ReturningSnoc | packages/server/src/orm/utils.ts:344-356 | one more column appends `", "` and the quoted name; with `ReturningForms` this fixes the clause for every list |
| OrmBuilders.CreateGroupBy | packages/server/src/orm/utils.ts:358-366 | the clause is empty exactly for an absent or empty name or an empty list; a name follows `GROUP BY` verbatim, and any non-empty clause starts with `GROUP BY` |
| OrmBuilders.GroupBySingle | packages/server/src/orm/utils.ts:358-366 | a one-column list groups as the bare column name does |
| OrmBuilders.GroupBySnoc | packages/server/src/orm/utils.ts:358-366 | one more column appends `", "` and the name; with `GroupBySingle` this fixes the clause for every list |
| OrmBuilders.JoinTexts | packages/server/src/orm/utils.ts:368-380 | one join line per join, in order |
| OrmBuilders.CreateJoin | packages/server/src/orm/utils.ts:368-380 | no join and an empty list give the empty clause; a single join gives its join text; a non-empty list starts with its first join's text |
| OrmBuilders.JoinText | packages/server/src/orm/utils.ts:368-380 | a join's text starts with its type (`INNER` when absent), `JOIN` and the table, and ends with `ON` and the condition |
| OrmBuilders.JoinForms | packages/server/src/orm/utils.ts:368-380 | a one-join list equals the single join, and a missing join type means `INNER` |
| OrmBuilders.JoinSnocText | packages/server/src/orm/utils.ts:368-380 | one more join appends a line break and its text; with `JoinForms` this fixes the clause for every list |
| OrmBuilders.CreateSelect | packages/server/src/orm/utils.ts:382-389 | an absent or empty selection is `*`, a non-empty name is taken verbatim, and an empty list is the empty text |
| OrmBuilders.SelectSingle | packages/server/src/orm/utils.ts:382-389 | a one-column list selects as the bare column name does |
| OrmBuilders.SelectSnoc | packages/server/src/orm/utils.ts:382-389 | one more column appends `", "` and the name; with `SelectSingle` this fixes the list for every input |
| OrmBuilders.Slice63 | packages/server/src/orm/utils.ts:340 | `slice(63)` drops the first 63 characters: the name is empty when the text is 63 characters or fewer, and otherwise is the rest after them |
| OrmBuilders.CreateInsert | packages/server/src/orm/utils.ts:309-342 | the insert assembled with its accumulators equals the insert specification |
| OrmBuilders.InsertShape | packages/server/src/orm/utils.ts:309-342 | the insert fails exactly when a column is inserted and some row is undefined or null; otherwise it binds rows × distinct columns values |
| OrmBuilders.ShortInsertName | packages/server/src/orm/utils.ts:337-341 | for a table name of ordinary length, the statement name is empty |
| OrmConditions.RenderAll | packages/server/src/orm/utils.ts:174-244 | each compiled clause is rendered, in order |
| OrmConditions.Range | packages/server/src/orm/utils.ts:174-233 | the placeholder range from a to b has b − a numbers |
| OrmConditions.RangeSplit | packages/server/src/orm/utils.ts:174-233 | consecutive placeholder ranges join into one range |
| OrmConditions.PlaceholdersAllAppend | packages/server/src/orm/utils.ts:239-244 | the placeholders of joined clause lists are those of each list, in order |
| OrmConditions.NestedError | packages/server/src/orm/utils.ts:160-171 | a nested map is accepted exactly when its first key is an operator key |
| OrmConditions.LeafShape | packages/server/src/orm/utils.ts:174-233 | a non-map value consumes at most one value and one clause, numbered with the next placeholder. It fails exactly for an unsupported operator operand. A plain column emits nothing for undefined, and `IS NULL` without a value for null |
| OrmConditions.UpToUnfold | packages/server/src/orm/utils.ts:142-237 | compiling one more entry appends its clauses and values after those of the earlier entries |
| OrmConditions.UpToNumbering | packages/server/src/orm/utils.ts:142-237 | the placeholders of the first i entries are `$n+1`..`$n+count`, consecutive and one per value |
| OrmConditions.UpToSplit | packages/server/src/orm/utils.ts:142-237 | a successful compilation of i entries is that of i − 1 entries followed by entry i − 1, numbered after them |
| OrmConditions.EntryNumbering | packages/server/src/orm/utils.ts:146-233 | one entry, nested maps included, numbers its placeholders consecutively from n + 1 |
| OrmConditions.GroupNumbering | packages/server/src/orm/utils.ts:151-159 | wrapping nested clauses in a parenthesised group keeps their numbering |
| OrmConditions.NumberingConcat | packages/server/src/orm/utils.ts:142-237 | two consecutively numbered parts joined are consecutively numbered |
| OrmConditions.MapNumbering | packages/server/src/orm/utils.ts:117-247 | a compiled filter map numbers its placeholders `$n+1`..`$n+count`, one per value |
| OrmConditions.ErrorPropagates | packages/server/src/orm/utils.ts:117-247 | once an entry throws, compiling more entries throws the same error |
| OrmConditions.WhereValues | packages/server/src/orm/utils.ts:249-289 | a compilable where gives a WHERE clause whose values are the compiled values, numbered from the offset |
| OrmConditions.AbsentWhere | packages/server/src/orm/utils.ts:267-287 | an absent or empty where gives no conditions and no values |
| OrmConditions.AllUndefinedWhere | packages/server/src/orm/utils.ts:249-289 | a where whose values are all undefined compiles to no conditions |
| OrmConditions.AllUndefinedUpTo | packages/server/src/orm/utils.ts:212-234 | entries whose values are all undefined compile to nothing |
| OrmConditions.RenderAllAppend | packages/server/src/orm/utils.ts:239-244 | rendering joined clause lists renders each list, in order |
| OrmConditions.ValueList.constructor | packages/server/src/orm/utils.ts:119 | the shared value list starts empty |
| OrmConditions.ValueList.ParseLeaf | packages/server/src/orm/utils.ts:174-234 | pushes exactly the leaf's compiled values onto the shared list and returns its rendered clauses, or throws as the specification does |
| OrmConditions.ValueList.ParseOperator | packages/server/src/orm/utils.ts:146-208 | the same, for a `$` key |
| OrmConditions.ParseConditions | packages/server/src/orm/utils.ts:117-247 | throws exactly when the compilation throws. Otherwise it appends the compiled values to the shared list and returns the rendered clauses, or joins them under `compareBy` |
| OrmConditions.ParseLevel | packages/server/src/orm/utils.ts:142-237 | the loop over one map's entries agrees with the compilation of all its entries |
| OrmConditions.ParseNext | packages/server/src/orm/utils.ts:142-237 | one loop step extends the clauses and the value list by the next entry's, or stops with its error |
| OrmConditions.StepError | packages/server/src/orm/utils.ts:142-237 | an entry's error is the whole level's error |
| OrmConditions.StepOk | packages/server/src/orm/utils.ts:142-237 | a successful entry extends the level's clauses and values |
| OrmConditions.ParseEntry | packages/server/src/orm/utils.ts:142-237 | one entry's parse pushes exactly its compiled values and returns its rendered clauses |
| OrmConditions.CreateConditions | packages/server/src/orm/utils.ts:249-289 | returns the WHERE text and values of the specification, throwing where it throws |
| OrmDiff.MergeDiff | packages/server/src/orm/utils.ts:57-61 | each of the three change lists is the first diff's list followed by the second's |
| OrmDiff.MergeDiffLaws | packages/server/src/orm/utils.ts:57-61 | merging has the empty diff as identity and is associative |
| OrmDiff.Serialized | packages/server/src/orm/utils.ts:78-82 | a change side is null exactly for a null value |
| OrmDiff.DiffObjects | packages/server/src/orm/utils.ts:63-104 | the loop over the key union computes the recursive diff |
| OrmDiff.DiffKey | packages/server/src/orm/utils.ts:72-101 | one key's step merges that key's changes into the running total |
| OrmDiff.DiffSelf | packages/server/src/orm/utils.ts:63-104 | an object diffed against itself has no changes |
| OrmDiff.ValuesSelf | packages/server/src/orm/utils.ts:63-104 | the same, as empty change lists |
| OrmDiff.UpToSelf | packages/server/src/orm/utils.ts:70-101 | over any prefix of the keys, an object diffed against itself has no changes |
| OrmDiff.KeySelf | packages/server/src/orm/utils.ts:72-101 | one key of an object against itself gives no change |
| OrmDiff.DiffClassified | packages/server/src/orm/utils.ts:63-104 | every change is in the right list (add has no actual, remove has no definition, update has both), and its path extends the current path by a key |
| OrmDiff.UpToClassified | packages/server/src/orm/utils.ts:70-101 | the same over any prefix of the keys |
| OrmDiff.KeyClassified | packages/server/src/orm/utils.ts:72-101 | the same for one key |
| OrmDiff.NarrowClassified | packages/server/src/orm/utils.ts:96-98 | changes found under a nested path also lie under the parent path |
| OrmDiff.MergeClassified | packages/server/src/orm/utils.ts:57-61 | merging keeps the classification |
| OrmDiff.UpToIncludes | packages/server/src/orm/utils.ts:70-101 | each visited key's changes are all in the total |
| OrmDiff.KeyDiffs | packages/server/src/orm/utils.ts:70-101 | the per-key diffs, one per visited key in order |
| OrmDiff.UpToIsMergeAll | packages/server/src/orm/utils.ts:70-101 | the total is the merge of the per-key diffs in key order |
| OrmDiff.MergeAllIncludes | packages/server/src/orm/utils.ts:57-61 | a merge of diffs contains each of them |
| OrmDiff.KeyIncluded | packages/server/src/orm/utils.ts:63-104 | the changes of every key of either object are in the diff |
| OrmDiff.DefinitionOnly | packages/server/src/orm/utils.ts:91-94 | a key set only in the first object is reported in `add` with the serialised definition |
| OrmDiff.KeyAdds | packages/server/src/orm/utils.ts:91-94 | such a key adds exactly that one change |
| OrmDiff.DatabaseOnly | packages/server/src/orm/utils.ts:85-88 | a key set only in the second object is reported in `remove` with the serialised actual value |
| OrmDiff.KeyRemoves | packages/server/src/orm/utils.ts:85-88 | such a key removes exactly that one change |
| OrmDiff.KeyUpdates | packages/server/src/orm/utils.ts:100 | two different non-null values, not both objects, give exactly one update, with the actual value first |
| OrmDiff.ValuesDiffer | packages/server/src/orm/utils.ts:100 | that update is in the diff's `update` list |
| OrmDiff.UpToSource | packages/server/src/orm/utils.ts:63-104 | every reported change comes from one of the visited keys |
| OrmDiff.KeySwap | packages/server/src/orm/utils.ts:73-101 | for one key, exchanging the two objects turns a removal into an addition and keeps an update an update, with the two serialisations exchanged |
| OrmDiff.ValuesSwap | packages/server/src/orm/utils.ts:63-104 | the same for the whole recursive diff, in both directions |
| OrmDiff.DiffSwap | packages/server/src/orm/utils.ts:63-104 | `diffObjects(B, A)` adds what `diffObjects(A, B)` removes, removes what it adds, and updates what it updates, each with the sides exchanged; the lists agree as collections, not in order |
| OrmDefine.Select | packages/server/src/orm/Model.ts:91-122 | a filtered name list is no longer than the columns scanned |
| OrmDefine.SelectMembers | packages/server/src/orm/Model.ts:91-122 | a name is selected exactly when one of the scanned columns has that name and passes the test |
| OrmDefine.ColumnOfAt | packages/server/src/orm/Model.ts:128 | with distinct names, looking a column up by its name finds that column |
| OrmDefine.ColumnsOf | packages/server/src/orm/Model.ts:35-74 | the kept names, in declaration order: bare when raw, `"prefix"."col"` with a prefix, and quoted otherwise |
| OrmDefine.ColumnsMembers | packages/server/src/orm/Model.ts:35-74 | a name is kept exactly when its column passes the options' filters |
| OrmDefine.InsertedColumns | packages/server/src/orm/Model.ts:35-74 | the inserted columns are exactly the columns without a primary key and without a default, foreign keys included |
| OrmDefine.PartitionCount | packages/server/src/orm/Model.ts:91-122 | every column is either regular or foreign |
| OrmDefine.DefinePartition | packages/server/src/orm/Model.ts:91-158 | every column is in exactly one place, the table body when it has no foreign key and its own ALTER otherwise; primary-key columns are regular |
| OrmDefine.GroupKeysSpec | packages/server/src/orm/Model.ts:95-101 | the unique groups are listed once each, and are exactly the groups some column names |
| OrmDefine.AddToGroup | packages/server/src/orm/Model.ts:95-101 | one column's step keeps the group keys and their member lists equal to the specification |
| OrmDefine.SortColumn | packages/server/src/orm/Model.ts:103-121 | one column's step keeps the regular, foreign and primary lists equal to the specification |
| OrmDefine.SortColumns | packages/server/src/orm/Model.ts:91-122 | the whole reduce yields the specified lists, group keys and group members |
| OrmDefine.SpaceSnocIf | packages/server/src/orm/Model.ts:128-146 | an optional part joins with one space, or adds nothing when absent |
| OrmDefine.ColumnDefText | packages/server/src/orm/Model.ts:128-146 | column text is quoted name, type, then `UNIQUE`, `NOT NULL` and `DEFAULT v`, in that order, each only when set |
| OrmDefine.ColumnDefs | packages/server/src/orm/Model.ts:128-146 | one column text per regular column, in order |
| OrmDefine.PrimaryKeyText | packages/server/src/orm/Model.ts:151-153 | the `PRIMARY KEY` clause is empty exactly when no column is primary |
| OrmDefine.ForeignKeyDefaults | packages/server/src/orm/Model.ts:163-193 | a foreign-key column's type defaults to `INTEGER` and its referenced column to `id` |
| OrmDefine.ForeignKeyTexts | packages/server/src/orm/Model.ts:163-193 | one ALTER statement per foreign-key column, in order |
| OrmDefine.ConstraintTexts | packages/server/src/orm/Model.ts:204-212 | one constraint per unique group, naming that group's members |
| OrmDefine.PrimaryKeyClause | packages/server/src/orm/Model.ts:151-158 | the table has a `PRIMARY KEY` clause exactly when some column without a foreign key is primary |
| OrmDefine.EveryColumnDefined | packages/server/src/orm/Model.ts:91-193 | each foreign-key column has its ALTER in the definition, and each other column its text in the table body |
| OrmDefine.GroupConstraints | packages/server/src/orm/Model.ts:91-212 | exactly one constraint per distinct unique group, in first-seen order, listing its members in declaration order |
| OrmExecutor.PreparedName | packages/server/src/orm/connection.ts:19-32 | a non-empty name is kept; an absent or empty name becomes the hash of the text |
| OrmExecutor.Executor.constructor | packages/server/src/orm/db.ts:180 | a fresh client has sent nothing and been released no times |
| OrmExecutor.Executor.Prepared | packages/server/src/orm/connection.ts:19-32 | sends one named statement, appended to the log, and returns the server's answer to it |
| OrmExecutor.Executor.Query | packages/server/src/orm/connection.ts:9-17 | sends one plain statement, appended to the log, and returns the server's answer to it |
| OrmExecutor.Executor.Release | packages/server/src/orm/db.ts:195 | releasing sends nothing and counts one release |
| OrmModel.SelectLines | packages/server/src/orm/Model.ts:274-309 | the statement lines are assembled as the specification orders them |
| OrmModel.FindQuery | packages/server/src/orm/Model.ts:257-316 | `find` throws exactly when its where throws, and otherwise binds exactly the where's values |
| OrmModel.FindValues | packages/server/src/orm/Model.ts:257-316 | a compilable where is bound with its placeholders numbered from 1 |
| OrmModel.FindOneLimit | packages/server/src/orm/Model.ts:252-255 | `findOne` always has `LIMIT 1`, which is the last line when there is no offset |
| OrmModel.IdLevel | packages/server/src/orm/Model.ts:239-250 | the `{id}` where compiles as the `id` column alone |
| OrmModel.FindByIdCondition | packages/server/src/orm/Model.ts:239-250 | `findById` compiles: `"id" = $1` binding the id, `IS NULL` for null, and no WHERE for undefined |
| OrmModel.IdEquality | packages/server/src/orm/Model.ts:239-250 | a defined non-null id gives `WHERE "id" = $1` with that id as the only value |
| OrmModel.EqualityText | packages/server/src/orm/utils.ts:278-283 | that clause renders as `WHERE "id" = $1` |
| OrmModel.IdIsNull | packages/server/src/orm/Model.ts:239-250 | a null id gives `WHERE "id" IS NULL` with no values |
| OrmModel.IsNullText | packages/server/src/orm/utils.ts:212-214 | that clause renders as `WHERE "id" IS NULL` |
| OrmModel.SetFields | packages/server/src/orm/Model.ts:390-391 | the SET entries are exactly the changes whose value is not undefined |
| OrmModel.UpdateQuery | packages/server/src/orm/Model.ts:376-437 | `update` throws exactly when its where throws. Otherwise it binds the SET values first and then the where values |
| OrmModel.AssembleUpdate | packages/server/src/orm/Model.ts:398-427 | the statement lines are assembled as the specification orders them |
| OrmModel.UpdateBinding | packages/server/src/orm/Model.ts:388-431 | the k SET columns bind `$1`..`$k`, and the where is compiled from offset k |
| OrmModel.UpdateSetForm | packages/server/src/orm/Model.ts:402-419 | the tuple form `SET ("a", "b") = (...)` is used exactly when there is more than one SET column |
| OrmModel.UpdateWithoutWhere | packages/server/src/orm/Model.ts:376-437 | without a where, `update` still succeeds and binds only the SET values: there is no guard |
| OrmModel.DeleteQuery | packages/server/src/orm/Model.ts:457-490 | an absent or keyless where throws the guard error. Otherwise `delete` throws exactly when its where throws, and binds exactly the where's values |
| OrmModel.DeleteAllUndefined | packages/server/src/orm/Model.ts:467-477 | a where whose values are all undefined passes the guard and deletes without a WHERE clause |
| OrmModel.BulkQuery | packages/server/src/orm/Model.ts:345-347 | empty or all-falsy data sends no statement |
| OrmModel.BulkQueryShape | packages/server/src/orm/Model.ts:335-374 | for other data the unfiltered rows are inserted. It throws exactly when an inserted column exists and some row is undefined or null; otherwise it binds rows × distinct inserted columns values |
| OrmModel.BulkQueryName | packages/server/src/orm/Model.ts:335-374 | with an ordinary table name the insert is sent under the hash of its text |
| OrmModel.CountText | packages/server/src/orm/Model.ts:232 | the count text the server returns compares above 0 exactly when the count is positive |
| OrmModel.SeedOnlyEmpty | packages/server/src/orm/Model.ts:222-237 | `seed` sends nothing exactly when there is no seed data. It sends the count first. It inserts, and returns true, only after a zero count |
| OrmModel.Model.constructor | packages/server/src/orm/Model.ts:20-33 | the model holds the given table name, schema and seed data |
| OrmModel.Model.Define | packages/server/src/orm/Model.ts:76-220 | the DDL is the definition specified for the model's table and schema |
| OrmModel.Model.Find | packages/server/src/orm/Model.ts:257-316 | sends the specified SELECT once when it compiles, and returns its rows, or the error |
| OrmModel.Model.FindOne | packages/server/src/orm/Model.ts:252-255 | the same with `limit: 1`, returning the first row |
| OrmModel.Model.FindById | packages/server/src/orm/Model.ts:239-250 | the same with `where {id}` |
| OrmModel.Model.BulkCreate | packages/server/src/orm/Model.ts:335-374 | returns `[]` and sends nothing for falsy data; fails before sending when the insert throws; otherwise sends the insert once and returns its rows |
| OrmModel.Model.Create | packages/server/src/orm/Model.ts:318-333 | the same for one row, returning its first row |
| OrmModel.Model.Update | packages/server/src/orm/Model.ts:376-437 | sends the specified UPDATE once when it compiles, and returns its rows |
| OrmModel.Model.DeleteById | packages/server/src/orm/Model.ts:439-455 | sends the named delete with the id as its only value, and returns whether exactly one row was deleted |
| OrmModel.Model.Delete | packages/server/src/orm/Model.ts:457-490 | sends nothing when the guard or the where throws, and otherwise sends the DELETE once and returns its rows |
| OrmModel.Model.Seed | packages/server/src/orm/Model.ts:222-237 | sends exactly the seed trace's statements and returns its outcome |
| OrmRun.Plains | packages/server/src/orm/connection.ts:9-17 | plain statements for texts, in order |
| OrmRun.Run | packages/server/src/orm/db.ts:119-165 | an awaited loop sends at most one statement per text, and all of them when it succeeds |
| OrmRun.QueryEach | packages/server/src/orm/db.ts:119-165 | the loop sends the trace's statements and returns its outcome |
| OrmRun.ErrSticks | packages/server/src/orm/db.ts:119-165 | after the first failure nothing more is sent and the error stays |
| OrmRun.RunSent | packages/server/src/orm/db.ts:119-165 | what is sent is a prefix of the texts, in order |
| OrmRun.RunAllOk | packages/server/src/orm/db.ts:119-165 | the loop succeeds exactly when the server accepts every statement |
| OrmRun.RunFailure | packages/server/src/orm/db.ts:119-165 | a failed loop ends with the statement that failed, and throws that statement's error |
| OrmRun.Then | packages/server/src/orm/db.ts:119-165 | a second sequence runs only after the first succeeds |
| OrmRun.RunAppend | packages/server/src/orm/db.ts:119-165 | two loops one after the other send and return what one loop over both lists does |
| OrmRun.RunJoin | packages/server/src/orm/db.ts:119-165 | the same, for a whole list split in two |
| OrmRun.RunPrefix | packages/server/src/orm/db.ts:119-165 | the first n steps depend only on the first n texts |
| OrmRun.FlattenAppend | packages/server/src/orm/db.ts:140-155 | flattening per-model lists distributes over concatenation |
| OrmRun.FlattenMember | packages/server/src/orm/db.ts:140-155 | a statement is in the flattened list exactly when some model lists it |
| OrmRun.ExtensionTexts | packages/server/src/orm/db.ts:119-121 | one `CREATE EXTENSION IF NOT EXISTS` per extension, in order |
| OrmRun.DropTexts | packages/server/src/orm/db.ts:126-128 | each model's drop, in model order |
| OrmRun.CreateTexts | packages/server/src/orm/db.ts:133-135 | each model's create, in model order |
| OrmRun.ForeignKeyParts | packages/server/src/orm/db.ts:140-144 | each model's foreign-key statements, in model order |
| OrmRun.GroupParts | packages/server/src/orm/db.ts:149-155 | each model's unique-group constraints, in model order |
| OrmRun.SeedOfSeeds | packages/server/src/orm/db.ts:161-165 | the models' own seeder behaves as each model's `seed` |
| OrmRun.SeedsAsAt | packages/server/src/orm/db.ts:161-165 | a seeder that agrees with the models from k on agrees with each of them |
| OrmRun.SeedNext | packages/server/src/orm/db.ts:161-165 | after successful seeds, the next model's seed statements follow theirs |
| OrmRun.SeedSticks | packages/server/src/orm/db.ts:161-165 | after a failing seed no further model is seeded |
| OrmRun.SeedAllFailure | packages/server/src/orm/db.ts:161-165 | a failed seeding throws the error of some model's seed |
| OrmRun.InitOrder | packages/server/src/orm/db.ts:101-177 | `init` sends its DDL in order, before any seed statement, and all of it when it succeeds |
| OrmRun.TransactProtocol | packages/server/src/orm/db.ts:179-197 | BEGIN comes first. It ends with COMMIT exactly when it returns and with ROLLBACK exactly when it throws. On success it sent BEGIN, the callback's statements and COMMIT, and returns the callback's result. A throwing callback makes it throw |
| OrmRun.TryTransaction | packages/server/src/orm/db.ts:182-190 | the `try` block sends BEGIN, the callback and COMMIT, up to the first failure |
| OrmDb.OnActionType | packages/server/src/orm/db.ts:31-37 | exactly the codes r, c, n and d map to an action; `a` maps to none |
| OrmDb.ActionCodes | packages/server/src/orm/db.ts:31-37 | each action has exactly one code, and mapping that code gives back the action |
| OrmDb.ColumnType | packages/server/src/orm/db.ts:39-60 | in priority order, a primary-key INTEGER is SERIAL, then USER-DEFINED → udt name, CHARACTER VARYING → `VARCHAR(len)`, NUMERIC → `NUMERIC(p, s)`, otherwise the data type; SERIAL arises only in those ways |
| OrmDb.OfKind | packages/server/src/orm/db.ts:273-284 | the constraints of one kind on one table, in order |
| OrmDb.FindConstraint | packages/server/src/orm/db.ts:311-313 | `find` returns the first constraint on the column, or nothing when none is on it |
| OrmDb.GetPutIf | packages/server/src/orm/db.ts:317-351 | setting a property only when present changes that one property |
| OrmDb.KeyPutIf | packages/server/src/orm/db.ts:317-351 | the same for the key list |
| OrmDb.DistinctPutIf | packages/server/src/orm/db.ts:317-351 | conditional setting keeps keys distinct |
| OrmDb.FkObjectReads | packages/server/src/orm/types.ts:15-28 | a declared foreign key read as an object has distinct keys and reads its own properties |
| OrmDb.ColumnObjectReads | packages/server/src/orm/types.ts:15-28 | a declared column read as an object reads its own properties |
| OrmDb.ColumnObjectDistinct | packages/server/src/orm/types.ts:15-28 | that object has distinct keys |
| OrmDb.ColumnObjectHasType | packages/server/src/orm/types.ts:15-28 | it has a `type` key exactly when the column sets a type |
| OrmDb.MutateIdempotent | packages/server/src/orm/db.ts:237-258 | the in-place column mutation done twice is the same as once |
| OrmDb.MigratedSchema | packages/server/src/orm/db.ts:237-258 | each column of the model's schema is mutated in place, in order |
| OrmDb.NormalisedColumn | packages/server/src/orm/db.ts:237-258 | declared normalisation: pk ⇒ required; a unique group becomes `unique` with no group; a foreign key gets a type and a referenced column |
| OrmDb.FkDefaultsRead | packages/server/src/orm/db.ts:243-251 | `{column: "id", ...fk}` has distinct keys, and reads as the foreign key with `id` as the default column |
| OrmDb.FkDefaultsGet | packages/server/src/orm/db.ts:243-251 | the second half of the same |
| OrmDb.SpreadDistinct | packages/server/src/orm/db.ts:243-251 | a spread onto distinct keys has distinct keys |
| OrmDb.RequireKeyReads | packages/server/src/orm/db.ts:239-241 | pk sets `required` to true and nothing else |
| OrmDb.WidenForeignKeyReads | packages/server/src/orm/db.ts:243-252 | the fk step replaces `fk` with the defaulted object and adds `type: INTEGER` only when no type was set |
| OrmDb.DropGroupReads | packages/server/src/orm/db.ts:254-257 | the group step deletes `uniqueGroup` and sets `unique` to true |
| OrmDb.DeclaredReads | packages/server/src/orm/db.ts:237-258 | the declared object reads every property through the three steps in order |
| OrmDb.DeclaredNormalised | packages/server/src/orm/db.ts:237-258 | the declared object reads as the normalised column, with the defaulted `fk` object |
| OrmDb.DeclaredProperty | packages/server/src/orm/db.ts:237-258 | any property other than `fk` reads as the normalised column's |
| OrmDb.GetAbsentKey | packages/server/src/orm/db.ts:254-257 | an absent key reads as undefined |
| OrmDb.RemoveDistinct | packages/server/src/orm/db.ts:254-257 | `delete` keeps keys distinct |
| OrmDb.DeclaredRepeatable | packages/server/src/orm/db.ts:237-258 | normalising an already mutated column gives the same declared shape, so running `migrate` again declares the same schema |
| OrmDb.DeclaredTables | packages/server/src/orm/db.ts:232-266 | one declared table per model, in order |
| OrmDb.MigratedGroups | packages/server/src/orm/db.ts:254-257 | after `migrate`, the only unique groups left are those that the mutation does not delete |
| OrmDb.MigrateDropsGroupConstraints | packages/server/src/orm/db.ts:237-258 | after `migrate`, a later `define()` emits no group constraint for plain grouped columns, though it emitted one per group before |
| OrmDb.LiveRead | packages/server/src/orm/db.ts:307-352 | the live column object reads each property as the catalog rows say |
| OrmDb.LiveNormalised | packages/server/src/orm/db.ts:307-352 | live normalisation: the type is the mapped type; `required` exactly when not nullable; `pk` exactly when a pk constraint exists, with its default unless SERIAL; a non-pk default only when non-null; `fk` exactly when an fk constraint exists |
| OrmDb.LiveTables | packages/server/src/orm/db.ts:268-360 | one live table per model, in order |
| OrmDb.FormatColumns | packages/server/src/orm/db.ts:307-356 | the reduce over the column rows builds the live table |
| OrmDb.FormatSchema | packages/server/src/orm/db.ts:268-369 | the live schema is keyed by model key, in order |
| OrmDb.DeclareModel | packages/server/src/orm/db.ts:234-263 | one model's columns are mutated in place, and its declared table is read from the schema as it was |
| OrmDb.SchemasOf | packages/server/src/orm/db.ts:232-266 | the models' schemas, in order |
| OrmDb.DeclareModels | packages/server/src/orm/db.ts:232-266 | every model's schema is mutated in place, and the declared schema is keyed by model key |
| OrmDb.DeclareLoop | packages/server/src/orm/db.ts:232-266 | the loop over the models yields the keyed declared tables and leaves every schema mutated |
| OrmDb.DeclareNext | packages/server/src/orm/db.ts:232-266 | one step mutates only the next model and adds its declared table |
| OrmDb.DeclareAt | packages/server/src/orm/db.ts:234-263 | mutating model i leaves every other model's schema unchanged |
| OrmDb.StatesOf | packages/server/src/orm/db.ts:161-165 | the table name, schema and seed data of each model, in order |
| OrmDb.Defs | packages/server/src/orm/db.ts:112-114 | each model's definition, in order |
| OrmDb.DefineAll | packages/server/src/orm/db.ts:112-114 | the loop calls `define()` on every model, in order |
| OrmDb.SeedNextModel | packages/server/src/orm/db.ts:161-165 | one step seeds the next model after the previous ones |
| OrmDb.SeedModels | packages/server/src/orm/db.ts:161-165 | the seed loop sends every model's seed statements in order and stops at the first failure |
| OrmDb.SeedUntilFailure | packages/server/src/orm/db.ts:161-165 | the loop stops early only on a failure |
| OrmDb.InitSteps | packages/server/src/orm/db.ts:111-176 | the `try` block sends the DDL and then the seeds, as the init trace says |
| OrmDb.InitModels | packages/server/src/orm/db.ts:111-176 | the same with the models' own seeder |
| OrmDb.MigrateModels | packages/server/src/orm/db.ts:232-371 | mutates every schema in place, builds the live schema, and diffs against it the declared tables computed from the old schemas, which equal the normalised (mutated) column shapes |
| OrmDb.MigrateReports | packages/server/src/orm/db.ts:371 | every reported change is correctly classified; identical declared and live schemas report nothing |
| OrmDb.Db.constructor | packages/server/src/orm/db.ts:85-99 | the database holds the given model keys, models and extensions, and satisfies `Valid` (which `migrate` needs) exactly when the keys are distinct and no model object appears twice |
| OrmDb.Db.TableNames | packages/server/src/orm/db.ts:271-274 | each model's table name, in model order |
| OrmDb.Db.Init | packages/server/src/orm/db.ts:101-177 | in production it throws before sending anything. Otherwise it sends the DDL (extensions, drops, creates, foreign keys, groups) and then the seeds, and returns whether all of them succeeded |
| OrmDb.Db.Transact | packages/server/src/orm/db.ts:179-197 | sends the transaction trace, returns or rethrows its outcome, and releases the client exactly once |
| OrmDb.Db.Migrate | packages/server/src/orm/db.ts:204-377 | mutates the models' columns in place and returns the diff of the declared schema against the live schema, and the live schema |
| Dom.SpaceFrom | packages/server/src/utils/dom.ts:23 | finds the end of a whitespace-free run |
| Dom.SpaceEnd | packages/server/src/utils/dom.ts:23 | finds the end of a whitespace run |
| Dom.SplitSpaces | packages/server/src/utils/dom.ts:23 | splitting always gives at least one word |
| Dom.ParseSelector | packages/server/src/utils/dom.ts:28-37 | `#x` is the id x |
| Dom.ParseWords | packages/server/src/utils/dom.ts:25-38 | one selector per word |
| Dom.ParseWordsAt | packages/server/src/utils/dom.ts:25-38 | the i-th selector is the parse of the i-th word |
| Dom.ParseQuerySelector | packages/server/src/utils/dom.ts:22-39 | a query always parses to at least one selector |
| Dom.ParseBlank | packages/server/src/utils/dom.ts:22-39 | a blank query parses to the single empty tag |
| Dom.SplitJoin | packages/server/src/utils/dom.ts:23 | splitting words joined by single spaces gives the words back |
| Dom.JoinEnds | packages/server/src/utils/dom.ts:23 | words joined by spaces neither start nor end with whitespace |
| Dom.SpaceFromIs | packages/server/src/utils/dom.ts:23 | the end of a run is determined by its contents |
| Dom.SpaceEndIs | packages/server/src/utils/dom.ts:23 | the same for a whitespace run |
| Dom.Query | packages/server/src/utils/dom.ts:22-39 | renders selectors as words |
| Dom.ParseRender | packages/server/src/utils/dom.ts:28-37 | parsing a rendered selector gives the selector back |
| Dom.TrimWord | packages/server/src/utils/dom.ts:23-26 | trimming a word without outer whitespace leaves it unchanged |
| Dom.ParseJoined | packages/server/src/utils/dom.ts:22-39 | a query of space-joined words parses word by word |
| Dom.ParseQueryRoundTrip | packages/server/src/utils/dom.ts:22-39 | parsing the rendered query of any selectors gives those selectors back |
| Dom.PreOrder | packages/server/src/utils/dom.ts:60-80 | pre-order starts with the node itself |
| Dom.PreOrderSplit | packages/server/src/utils/dom.ts:60-80 | the pre-order splits after any number of children |
| Dom.PreOrderGrow | packages/server/src/utils/dom.ts:60-80 | moving one child into the visited part keeps the pre-order |
| Dom.Filter | packages/server/src/utils/dom.ts:100-126 | the matches are no more than the nodes |
| Dom.FilterMembers | packages/server/src/utils/dom.ts:100-126 | a node is a match exactly when it is in the tree and matches the selector |
| Dom.FilterNone | packages/server/src/utils/dom.ts:100-126 | no matching node gives no match |
| Dom.FilterAppend | packages/server/src/utils/dom.ts:100-126 | filtering distributes over concatenation, keeping order |
| Dom.FilterFirst | packages/server/src/utils/dom.ts:60-80 | the first match is the earliest matching node |
| Dom.FirstMatchIsFirst | packages/server/src/utils/dom.ts:60-80 | the search finds nothing exactly when no node matches, and otherwise the first matching node in pre-order |
| Dom.MatchesStep | packages/server/src/utils/dom.ts:100-126 | the matches of one more child are appended in order |
| Dom.MatchesAll | packages/server/src/utils/dom.ts:100-126 | after all children, the loop has every match |
| Dom.MatchesNone | packages/server/src/utils/dom.ts:100-126 | before any child, only the node itself can match |
| Dom.MatchesKeepFirst | packages/server/src/utils/dom.ts:60-80 | later children never change the first match |
| Dom.FirstMatchRoot | packages/server/src/utils/dom.ts:66-68 | a matching node is its own first match |
| Dom.FirstMatchLeaf | packages/server/src/utils/dom.ts:70-71 | a childless non-matching node has no match |
| Dom.RecursiveQuery | packages/server/src/utils/dom.ts:60-80 | the loop with its early return finds the first match in pre-order, or nothing |
| Dom.RecursiveQueryAll | packages/server/src/utils/dom.ts:100-126 | the loop collects every match in pre-order, nested matches included |
| Dom.EmptyTagMatchesNothing | packages/server/src/utils/dom.ts:41-58 | the empty tag matches no node |
| Dom.SearchEach | packages/server/src/utils/dom.ts:85-97 | the while loop's result is the search for the last selector from the root |
| Dom.QuerySelector | packages/server/src/utils/dom.ts:82-98 | no root gives nothing; otherwise the first match of the last selector, the earlier ones narrowing nothing |
| Dom.SearchAllEach | packages/server/src/utils/dom.ts:133-145 | the while loop's result is every match of the last selector from the root |
| Dom.QuerySelectorAll | packages/server/src/utils/dom.ts:128-146 | no root gives nothing; otherwise every match of the last selector |
| Filings.LastPiece | packages/server/src/entities/Filings/utils.ts:8 | the last piece is never longer than the name |
| Filings.LastPieceShape | packages/server/src/entities/Filings/utils.ts:8 | the last piece is a suffix of the name that contains no separator, and is the whole name when there is no separator |
| Filings.FirstRule | packages/server/src/entities/Filings/utils.ts:10-30 | a label is found exactly when some rule matches, and it is the first matching rule's label |
| Filings.GetFilingType | packages/server/src/entities/Filings/utils.ts:3-31 | null without `statement` or with `parenthetical`; otherwise the first rule matching the last piece; always one of the five labels |
| Filings.ContainsInSuffix | packages/server/src/entities/Filings/utils.ts:8 | text found in a suffix is found in the name |
| Filings.GetFilingTypeSound | packages/server/src/entities/Filings/utils.ts:3-31 | every label found comes from a rule whose keyword is in the name, which has `statement` and no `parenthetical` |
| Filings.LastPieceOfJoin | packages/server/src/entities/Filings/utils.ts:8 | for pieces joined by ` - `, the text after the last separator is the last piece |
| Filings.FirstSeparator | packages/server/src/entities/Filings/utils.ts:8 | the first separator is found right after a separator-free first piece |
| Filings.NoSeparatorBefore | packages/server/src/entities/Filings/utils.ts:8 | no separator starts inside that first piece |
| Filings.Document | packages/server/src/entities/Filings/utils.ts:36 | the document URL is `baseURL/` followed by the file name, or `undefined` when it is missing |
| Filings.ReportTableSticks | packages/server/src/entities/Filings/utils.ts:33-45 | after a report without a name throws, later reports change nothing |
| Filings.ParseFilingReport | packages/server/src/entities/Filings/utils.ts:33-45 | the loop builds the report table |
| Filings.ReportTableFails | packages/server/src/entities/Filings/utils.ts:33-45 | the table is built exactly when every report has a name, and otherwise throws the missing-name error |
| Filings.ReportTableLatest | packages/server/src/entities/Filings/utils.ts:33-45 | each label maps to the document of the last report classified under it |
| Filings.ReportTableKeys | packages/server/src/entities/Filings/utils.ts:33-45 | the table's keys are labels of the classifier |
| Filings.FilingTableKeys | packages/server/src/entities/Filings/utils.ts:33-45 | with the filing classifier, every key is one of the five labels |
| ErrorFormat.WordRun | packages/server/src/utils/index.ts:12-13 | the longest run of ASCII letters and digits from a position |
| ErrorFormat.WordAt | packages/server/src/utils/index.ts:12-13 | the matched field is one or more letters or digits, enclosed in parentheses at the match |
| ErrorFormat.FindMatch | packages/server/src/utils/index.ts:12-13 | finds the first position where `(word)` matches, or reports that there is none |
| ErrorFormat.DetailFieldFinds | packages/server/src/utils/index.ts:12-13 | the first parenthesised word of a detail is its field |
| ErrorFormat.WordRunIs | packages/server/src/utils/index.ts:12-13 | a run is determined by its contents |
| ErrorFormat.DetailFieldNone | packages/server/src/utils/index.ts:12-18 | a detail without parentheses gives no field |
| ErrorFormat.FormatOne | packages/server/src/utils/index.ts:8-32 | undefined, null, or a unique violation without a text detail throws. A unique violation gives the field found and `<field> already exists` (`undefined` when there is none). Any other code copies `field` and `message` |
| ErrorFormat.ErrorsOf | packages/server/src/utils/index.ts:6 | an array is its elements, and anything else is a one-element list |
| ErrorFormat.FormatErrors | packages/server/src/utils/index.ts:3-34 | a falsy error formats to `[]` |
| ErrorFormat.FormatAllPointwise | packages/server/src/utils/index.ts:6-33 | the list formats exactly when every error does, element by element in order; otherwise it throws the first error's failure |
| ErrorFormat.FormatAllOk | packages/server/src/utils/index.ts:6-33 | the success half of the same |
| ErrorFormat.FormatAllErr | packages/server/src/utils/index.ts:6-33 | the failure half of the same |
| ErrorFormat.FormatSingle | packages/server/src/utils/index.ts:6 | a single non-array error formats as a one-element list |
| ErrorFormat.FormatErrorsList | packages/server/src/utils/index.ts:3-34 | a list of formattable errors gives one result per error, in order |
| Pipe.Fold | packages/common/index.ts:2 | folding no functions returns the value |
| Pipe.Run | packages/common/index.ts:1-3 | `pipe()` with no functions returns the argument list as an array |
| Pipe.FoldAppend | packages/common/index.ts:2 | folding two function lists is folding the second over the first's result |
| Pipe.FoldFirst | packages/common/index.ts:2 | the first function applies first |
| Pipe.RunFirst | packages/common/index.ts:1-2 | the first function receives the whole argument list as one array |
| Pipe.RunLast | packages/common/index.ts:2 | `pipe(f1..fn)(x) = fn(pipe(f1..fn−1)(x))` |
| Pipe.RunCompose | packages/common/index.ts:2 | a piped list split in two is the second part folded over the first part's result |
| JsString.IndexOf | packages/server/src/entities/Filings/utils.ts:8 | finds the first occurrence from a position, or reports that there is none |
| JsString.Trim | packages/server/src/utils/dom.ts:23 | `trim()` returns a slice of the input with no whitespace at either end, and everything it removed before and after that slice is whitespace |
| JsString.ToLower | packages/server/src/entities/Filings/utils.ts:35 | `toLowerCase()` lowers each character, keeping the length |
| JsString.NatToString | packages/server/src/orm/utils.ts:16 | a number's text is non-empty decimal digits, one digit exactly below 10 |
| JsString.NatToStringValue | packages/server/src/orm/utils.ts:16 | those digits denote the number, with a leading zero only for 0 itself |
| JsString.NatToStringInjective | packages/server/src/orm/utils.ts:16 | different numbers print differently, so each placeholder `$n` names one position |

## Left out

- Property order of JavaScript objects: an object is its insertion-ordered field list. JavaScript's rule that integer-like keys come first is not modelled.
- The `pg` pool and client (`packages/server/src/orm/connection.ts`) are the class `OrmExecutor.Executor`. What the server answers is a function `respond` of the statement's position in the log. Pool acquisition and the timing of a release are not modelled.
- The catalog queries of `migrate` and their `Promise.all` are not modelled: the constraint rows and per-table column rows are inputs of `OrmDb.Db.Migrate`.
- `hashString` (md5) and `JSON.stringify` are function parameters (`hash`, `json`). Their outputs are not modelled.
- `OrmDb.Db.Init`: `process.env.NODE_ENV === "production"` is the `production` parameter. The five DDL loops are one loop over their concatenation. `OrmRun.RunAppend` states that consecutive loops send and return exactly what one loop does.
- `OrmDb.Db.Init`, `OrmModel.Model.Seed`: the per-model seeder is a function from a model's state to its trace. `OrmRun.SeedOfSeeds` connects it to the models' own `seed`.
- `OrmDb.Db.Transact`: the callback is a fixed list of statements plus a result, not arbitrary code. A callback that branches on what the server answers is not modelled.
- `OrmDb.Db.Migrate` requires the models to be distinct objects. With two keys naming the same model object, its columns would be mutated twice. `OrmDb.MutateIdempotent` shows that gives the same schema, but that aliasing is not modelled.
- `OrmDb.ColumnObject`, `OrmDb.DeclaredColumn`: a declared column is a record with fixed fields, so its object lists its keys in the declared order of `IModelColumn` (type, defaultValue, required, unique, uniqueGroup, pk, fk). In the source, `migrate` keeps the column literal's own key order (`packages/server/src/orm/db.ts:239`). For a literal such as `{pk: true, type: "SERIAL"}`, `diffObjects` would then visit the keys, and list their changes, in another order. The set of changes is the same (`OrmDiff.DiffSwap` and `OrmDiff.KeyIncluded` are about membership).
- Strict equality `===` in `diffObjects` is false for any two composites: each is treated as its own allocation. Identical object references are not modelled.
- `OrmConditions.ParseConditions`: the `columns` accumulator (`packages/server/src/orm/utils.ts:120`, 175, 213, 219) collects the column names seen. Nothing in the code reads it after the call, so it is not modelled.
- Numbers are integers; floating point and number-to-text formatting beyond integers are not modelled.
- `toLowerCase` and `trim` cover ASCII letters and ASCII whitespace only.
- The regular expression of `formatErrors` and the whitespace split of `parseQuerySelector` are hand-written matchers with the same results on ASCII text.
- `getDocument`, `getXML` (`packages/server/src/utils/dom.ts:148-171`) and `packages/server/src/utils/fsMemo.ts` fetch over the network, call an HTML/XML parser and cache files on disk. They are not part of this model.
- `Dom.ParseSelector`: a `.x` word parses as the class x and any other word as a tag. The contract states only the `#x` case outright; `Dom.ParseRender` states the rest as a round trip.
- An HTML node's attributes are single strings. An attribute value given as an array by the parser is not modelled. A child list is present or absent, so the source's guard against a missing child is a case of the datatype.
- `Pipe.Run`: the piped functions are total functions on values. Functions that throw or return promises are not modelled.
- `console.log` calls have no effect on results and are left out.
- `extraneous` in `packages/server/src/entities/Filings/utils.ts:1` is an unused constant and is left out.
- `OrmBuilders.Slice63` models `slice(63)` as the code is written. It drops the first 63 characters, so ordinary names are empty and are replaced by the hash of the text (`OrmExecutor.PreparedName`).
- The GraphQL resolvers, schemas, middleware, configuration and JWT handling are not part of this model.
