# ObjectQuery and Enum, modelled in Dafny

This project models two classes of a PHP data-access framework.

**ObjectQuery** (`main/DAOs/ObjectQuery.class.php`) holds object-level criteria:
- a sort table of property names and directions;
- a list of filter expressions;
- a pending property name;
- a limit and an offset.

`toSelectQuery` rewrites these criteria into calls on a SQL select statement, using a DAO's mapping from properties to columns. In the model:
- `DAOs.ObjectQuery` is a class whose methods update those fields.
- The sort table is an ordered PHP array (`PhpArrays.PhpArray`). An assignment overwrites a key in place or appends it.
- PHP truthiness of the pending name is explicit: `""` and `"0"` are false.
- The select statement is the trace of calls made on it (`Statements.Clause`). The DAO is reduced to its mapping (`QueryTranslation.Mapping`).
- `QueryTranslation` defines the trace `toSelectQuery` produces as pure functions and proves its layout.
- The loops of `toSelectQuery` are the methods `DAOs.EmitSortClauses`, `DAOs.EmitFilterClauses`, `DAOs.EmitExpression`, `DAOs.EmitCross` and `DAOs.EmitEach`. Each is proved equal to those functions.

**Enum** (`core/Base/Enum.class.php`) is the base of every enumeration. An object holds an id and a name, and the id must be a key of the enumeration's static `names` table. In the model:
- `Base.Enum` carries that table as a constant.
- Ids are PHP scalars (`Base.Scalar`). Table lookups go through PHP's integer-key normalisation of numeric strings (`PhpStrings.IntegerKey`), so the string `"3"` finds the entry of `3`, while `"03"` finds nothing.

In two places the code behaves differently from what its surrounding design suggests. The model follows the code in both:
- A pending name that PHP finds false (`"0"`, `""`) is neither committed nor cleared by `toSelectQuery` (lines 120-123 of `main/DAOs/ObjectQuery.class.php`), and a direction given while it is pending fails (lines 277-280). Only `dropSort` or a later `sort` replace it.
- A property mapped to several columns and sorted `isNull`/`notNull` builds a `LogicalChain` and then discards it. The statement receives no call for that entry.

## Model

| member | source | states |
|---|---|---|
| PhpArrays.Put | main/DAOs/ObjectQuery.class.php:46 | `$a[$k] = $v`: an existing key keeps its position and gets the new value; a new key is appended |
| PhpArrays.Keys | core/Base/Enum.class.php:62 | `array_keys`: one key per entry, in the array's order |
| PhpArrays.Get | core/Base/Enum.class.php:112-114 | `isset($a[$k]) ? $a[$k]`: a value exactly when the key is present, and then the value stored with that key |
| PhpArrays.PutGet | main/DAOs/ObjectQuery.class.php:282 | after the assignment, reading `k` gives the new value and every other key reads as before |
| PhpArrays.PutKeys | main/DAOs/ObjectQuery.class.php:121 | the key order after the assignment: unchanged for a known key, the new key last otherwise |
| PhpStrings.Truthy | main/DAOs/ObjectQuery.class.php:45 | PHP's truthiness of a string: a true string is non-empty, and every string of two or more characters is true |
| PhpStrings.IntToDecimal | core/Base/Enum.class.php:45 | the `(string)` cast of an integer: non-empty, with a leading minus sign exactly for negative integers |
| PhpStrings.IntegerKey | core/Base/Enum.class.php:112 | the integer a string key is normalised to: only a non-empty string that starts with a minus sign or is canonical decimal is normalised, and a string without a sign gives a non-negative integer |
| PhpStrings.NatToDecimalCanonical | core/Base/Enum.class.php:45 | the decimal form of a natural number is canonical (no leading zero) and reads back as that number |
| PhpStrings.CanonicalNatToDecimal | core/Base/Enum.class.php:45 | a canonical digit string is the decimal form of its own value |
| PhpStrings.IntegerKeyOfDecimal | core/Base/Enum.class.php:112 | a string is normalised to the integer key `i` exactly when it is `(string) $i` |
| DAOs.CommitPending | main/DAOs/ObjectQuery.class.php:45-46 | a truthy pending name is recorded as SORT_ASC, appended if new and overwritten in place otherwise; every other entry is unchanged; a falsy or absent name changes nothing |
| DAOs.HasPending | main/DAOs/ObjectQuery.class.php:45 | `if ($this->current)`: a pending name counts only when it is set and non-empty, and every name of two or more characters counts |
| DAOs.Directed | main/DAOs/ObjectQuery.class.php:275-287 | with no truthy pending name the result is the "specify property name first" error; otherwise the pending name maps to the direction and nothing else changes |
| DAOs.ObjectQuery.constructor | main/DAOs/ObjectQuery.class.php:30-41 | a new query has an empty sort table and filter list, and no pending name, limit or offset |
| DAOs.ObjectQuery.Sort | main/DAOs/ObjectQuery.class.php:43-51 | commits the previous pending name as ascending, then makes `name` pending; logic, limit and offset are untouched |
| DAOs.ObjectQuery.DropSort | main/DAOs/ObjectQuery.class.php:53-59 | empties the sort table and clears the pending name, leaving the rest |
| DAOs.ObjectQuery.SetDirection | main/DAOs/ObjectQuery.class.php:275-287 | fails and leaves the state unchanged without a truthy pending name; otherwise records the direction and clears the pending name |
| DAOs.ObjectQuery.Asc | main/DAOs/ObjectQuery.class.php:61-64 | `SetDirection(SORT_ASC)` with the same failure and state guarantees |
| DAOs.ObjectQuery.Desc | main/DAOs/ObjectQuery.class.php:66-69 | `SetDirection(SORT_DESC)` with the same failure and state guarantees |
| DAOs.ObjectQuery.IsNull | main/DAOs/ObjectQuery.class.php:71-74 | `SetDirection(SORT_IS_NULL)` with the same failure and state guarantees |
| DAOs.ObjectQuery.NotNull | main/DAOs/ObjectQuery.class.php:76-79 | `SetDirection(SORT_NOT_NULL)` with the same failure and state guarantees |
| DAOs.ObjectQuery.GetLimit | main/DAOs/ObjectQuery.class.php:81-84 | returns the stored limit |
| DAOs.ObjectQuery.SetLimit | main/DAOs/ObjectQuery.class.php:86-91 | stores the limit and changes nothing else |
| DAOs.ObjectQuery.GetOffset | main/DAOs/ObjectQuery.class.php:93-96 | returns the stored offset |
| DAOs.ObjectQuery.SetOffset | main/DAOs/ObjectQuery.class.php:98-103 | stores the offset and changes nothing else |
| DAOs.ObjectQuery.GetLogic | main/DAOs/ObjectQuery.class.php:105-108 | returns the filter list |
| DAOs.ObjectQuery.AddLogic | main/DAOs/ObjectQuery.class.php:110-115 | appends the expression to the filter list and changes nothing else |
| DAOs.ObjectQuery.ToSelectQuery | main/DAOs/ObjectQuery.class.php:117-273 | commits a truthy pending name as ascending and clears it; the statement is the translation of the resulting sort table, the filters, the limit and the offset |
| DAOs.EmitEach | main/DAOs/ObjectQuery.class.php:141-149 | the per-column loop appends exactly one call per column, in column order |
| DAOs.EmitSortClauses | main/DAOs/ObjectQuery.class.php:129-216 | the sort loop produces the sort part of the translation, or the error of the first unmapped property |
| DAOs.EmitFilterClauses | main/DAOs/ObjectQuery.class.php:218-270 | the filter loop appends the translation of every expression in order |
| DAOs.EmitExpression | main/DAOs/ObjectQuery.class.php:220-269 | one filter expression is translated by the five-way case analysis of the code |
| DAOs.EmitCross | main/DAOs/ObjectQuery.class.php:228-235 | the nested loop appends one comparison per (left column, right column) pair, left column major |
| QueryTranslation.Each | main/DAOs/ObjectQuery.class.php:141-142 | one clause per column |
| QueryTranslation.EachAt | main/DAOs/ObjectQuery.class.php:141-149 | the k-th clause is the template applied to the k-th column |
| QueryTranslation.IsSet | main/DAOs/ObjectQuery.class.php:225-226 | `isset($map[$k])`: implies the key is in the mapping |
| QueryTranslation.TruthyVal | main/DAOs/ObjectQuery.class.php:254 | `if ($map[$left])`: a null mapping is false, and a single column name of two or more characters is true |
| QueryTranslation.OperandKey | main/DAOs/ObjectQuery.class.php:261 | the array key a right operand is looked up under: `""` exactly when the operand is null or the empty string |
| QueryTranslation.Cross | main/DAOs/ObjectQuery.class.php:228-235 | with no right column the nested loop emits nothing |
| QueryTranslation.CrossLength | main/DAOs/ObjectQuery.class.php:228-235 | two column lists of sizes a and b give a·b comparisons |
| QueryTranslation.CrossAppend | main/DAOs/ObjectQuery.class.php:229-235 | the comparisons of a concatenation of left columns are those of each part in turn |
| QueryTranslation.CrossRow | main/DAOs/ObjectQuery.class.php:229-235 | the comparisons for the i-th left column form the i-th block, one clause per right column, after i·(number of right columns) earlier clauses |
| QueryTranslation.CrossAt | main/DAOs/ObjectQuery.class.php:228-235 | clause number i·(number of right columns)+j compares left column i with right column j |
| QueryTranslation.CrossWhere | main/DAOs/ObjectQuery.class.php:231-234 | every clause of the cross product is an `andWhere` |
| QueryTranslation.EntryClausesShape | main/DAOs/ObjectQuery.class.php:129-216 | an unmapped property is an error naming it; a null mapping uses the property name as column; ascending or descending orders by every column in list order; a null test on one column orders by that test, and on several columns emits nothing |
| QueryTranslation.EntryClauses | main/DAOs/ObjectQuery.class.php:130-211 | one sort entry fails exactly when its property is unmapped, with that property's name; ascending or descending emits one clause per column of the property |
| QueryTranslation.SortClauses | main/DAOs/ObjectQuery.class.php:129-216 | the sort loop fails only with the name of a property the mapping lacks |
| QueryTranslation.SortClausesSnoc | main/DAOs/ObjectQuery.class.php:129-216 | one more sort entry: the earlier error, else the entry's own error, else the earlier clauses followed by the entry's |
| QueryTranslation.SortClausesAppend | main/DAOs/ObjectQuery.class.php:129-130 | translating a concatenated table is translating each part in turn; the first unmapped property wins |
| QueryTranslation.SortClausesOutcome | main/DAOs/ObjectQuery.class.php:212-215 | the sort part succeeds exactly when every property is mapped; otherwise the error names the first unmapped property in table order |
| QueryTranslation.SortClausesOrder | main/DAOs/ObjectQuery.class.php:138-210 | the sort part consists only of orderBy calls |
| QueryTranslation.ExprClausesShape | main/DAOs/ObjectQuery.class.php:224-269 | both operands mapped to column lists give the cross product; one list gives one comparison per column with the other operand raw; two single columns pass the expression unchanged; otherwise one clause: an unmapped left operand is a value, a mapped one is the field of its mapping when that is truthy and of its own name otherwise; a set right operand is the field of its mapping, an unset string a value, an unset null stays null |
| QueryTranslation.ExprClauses | main/DAOs/ObjectQuery.class.php:220-269 | an expression gives exactly one clause unless both operands are set and one of them maps to a column list |
| QueryTranslation.LeftTerm | main/DAOs/ObjectQuery.class.php:253-259 | the left operand becomes a value exactly when the mapping lacks it, and that value is the operand itself |
| QueryTranslation.RightTerm | main/DAOs/ObjectQuery.class.php:261-264 | the right operand stays raw null exactly when it is null and the key `""` is not set; when it becomes a value it is the operand's own string, which the mapping does not set |
| QueryTranslation.FilterClauses | main/DAOs/ObjectQuery.class.php:218-270 | when no left operand is set, every expression gives exactly one clause |
| QueryTranslation.FilterClausesStep | main/DAOs/ObjectQuery.class.php:218-270 | one more filter expression appends exactly its own clauses after those of the earlier ones |
| QueryTranslation.FilterClausesWhere | main/DAOs/ObjectQuery.class.php:218-270 | every clause of the filter part is an `andWhere` |
| QueryTranslation.TranslateLayout | main/DAOs/ObjectQuery.class.php:117-273 | the statement exists exactly when every sort property is mapped, and otherwise fails with an unknown property; the statement is orderings, then `andWhere` calls, then exactly one final `limit(limit, offset)` |
| QueryTranslation.Translate | main/DAOs/ObjectQuery.class.php:117-273 | a successful statement ends with `limit(limit, offset)`; a failure names a property the mapping lacks |
| ObjectQueryScenarios.NoCriteria | main/DAOs/ObjectQuery.class.php:272 | without sort entries or filters the statement is only the limit call |
| ObjectQueryScenarios.FirstCommitted | main/DAOs/ObjectQuery.class.php:120-121 | a truthy pending name committed into an empty table gives the single entry SORT_ASC |
| ObjectQueryScenarios.FirstDirected | main/DAOs/ObjectQuery.class.php:282-284 | a direction given to a truthy pending name on an empty table gives that single entry |
| ObjectQueryScenarios.Redirected | main/DAOs/ObjectQuery.class.php:282-284 | a direction given to the one name a table holds overwrites that entry |
| ObjectQueryScenarios.PendingNameCommitted | main/DAOs/ObjectQuery.class.php:119-123 | `sort(x)` alone translates the table holding x as SORT_ASC |
| ObjectQueryScenarios.ExplicitAscending | main/DAOs/ObjectQuery.class.php:61-64 | `sort(x)->asc()` translates the table holding x as SORT_ASC |
| ObjectQueryScenarios.ImplicitAscending | main/DAOs/ObjectQuery.class.php:119-123 | `sort(x)` with no direction translates like `sort(x)->asc()`, and succeeds exactly when x is mapped |
| ObjectQueryScenarios.LastDirectionWins | main/DAOs/ObjectQuery.class.php:43-51 | naming a property again and giving it another direction leaves one entry with the last direction |
| ObjectQueryScenarios.DropSortLeavesNoOrdering | main/DAOs/ObjectQuery.class.php:53-59 | after dropSort the statement has no ordering |
| ObjectQueryScenarios.DescendingOverTwoColumns | main/DAOs/ObjectQuery.class.php:146-151 | a descending property mapped to two columns orders by both, in list order |
| ObjectQueryScenarios.CrossProductFilter | main/DAOs/ObjectQuery.class.php:228-235 | comparing two two-column properties gives four comparisons, left column major |
| ObjectQueryScenarios.UnmappedLeftIsValue | main/DAOs/ObjectQuery.class.php:253-264 | operands the mapping does not know become values |
| ObjectQueryScenarios.PaginationOnly | main/DAOs/ObjectQuery.class.php:81-103 | the limit and offset that were set are the ones read back and the ones passed to the final limit call |
| ObjectQueryScenarios.DirectionWithoutName | main/DAOs/ObjectQuery.class.php:277-280 | a direction on a fresh query fails |
| ObjectQueryScenarios.UnknownSortProperty | main/DAOs/ObjectQuery.class.php:212-215 | a sort property missing from the mapping fails the translation with its name |
| ObjectQueryScenarios.FalsyNameIsNeverCommitted | main/DAOs/ObjectQuery.class.php:45 | the name "0" is never committed: nothing is ordered and a later direction fails |
| Base.AsString | core/Base/Enum.class.php:43-46 | the string cast of a string id is itself; that of an integer id normalises back to the integer |
| Base.KeyOf | core/Base/Enum.class.php:112 | the integer key an id indexes the table with, whose decimal form is the id's string form |
| Base.MissingMessage | core/Base/Enum.class.php:116-118 | the exception message ends with the id's string form |
| Base.Lookup | core/Base/Enum.class.php:110-114 | an id is found exactly when its normalised key is in the table, and then yields that entry's name |
| Base.SerializedIdNamesSameEntry | core/Base/Enum.class.php:43-51 | the string form of an id has the same key and finds the same name |
| Base.Enum.constructor | core/Base/Enum.class.php:36-39 | a new object holds the given known id and its name |
| Base.Enum.Create | core/Base/Enum.class.php:30-34 | succeeds exactly when the id is known, giving a fresh valid object with that id; otherwise the missing-element error |
| Base.Enum.SetId | core/Base/Enum.class.php:108-121 | a known id replaces id and name; an unknown id fails with "knows nothing about such id == <id>" and changes nothing; validity is preserved |
| Base.Enum.GetId | core/Base/Enum.class.php:78-81 | the id of a valid object is a key of the table and names the object's name |
| Base.Enum.ToString | core/Base/Enum.class.php:95-98 | the name is the table's entry for the current id |
| Base.Enum.Serialize | core/Base/Enum.class.php:43-46 | the serialized string resolves to the same key and, for a valid object, to its name |
| Base.Enum.Unserialize | core/Base/Enum.class.php:48-51 | behaves as setId with the string as id |
| Base.Enum.GetList | core/Base/Enum.class.php:59-66 | one fresh object per table entry, in table order, each holding that key as id and its name |
| Base.Enum.GetNameList | core/Base/Enum.class.php:100-103 | the table itself: same keys in the same order, and an integer id finds in it exactly the table's entry |
| Base.Enum.GetAnyId | core/Base/Enum.class.php:72-75 | the default id is 1 |
| Base.ValueAtKey | core/Base/Enum.class.php:62-63 | the entry at a position of the table is the one its key finds, and the integer id equal to that key names it |
| Base.SerializeRoundTrip | core/Base/Enum.class.php:43-51 | unserializing a serialized enum into another object of the same enumeration succeeds and restores the key and the name; the id becomes a string |
| Base.NonCanonicalIdIsMissing | core/Base/Enum.class.php:112-118 | the string "01" is not normalised to 1, so it is unknown even when 1 is a key |

## Left out

- `TextFileReceiver` (main/Messages/TextFileReceiver.class.php) is file-stream I/O with sleeps and timestamp parsing, and is not part of this model.
- `Assert` (core/Base/Assert.class.php) checks PHP runtime types and is not part of this model.
- `NamedObject`, the parent of `Enum`, is not part of this model; its `id` and `name` fields are declared on `Base.Enum`.
- `Enum::getObjectList` is a deprecated alias of `getList` and has no separate member.
- The DAO's `getMapping` is a parameter (`Mapping`). `makeSelectHead` is the empty trace at the start of the statement.
- `LogicalChain`, `DBField`, `DBValue`, `LogicalExpression` and `Expression::isNull`/`notNull` are uninterpreted constructors in the trace.
- Filter operands are strings, and the right operand may also be null. Objects and arrays as operands, and a null left operand, are not modelled.
- The `default:` branches that throw on an unknown direction are unreachable, because `Direction` has exactly the four SORT_* values.
- The fluent `return $this` is not modelled: methods change the object and return only their outcome.
- Exceptions become results: `WrongStateException` is `QueryError` and `MissingElementException` is `EnumError`.
- Base.Enum.constructor: requires a known id instead of throwing. The throwing path of construction is `Base.Enum.Create`.
- Base.Enum.GetAnyId: states only the constant 1. The source's promise that this id exists holds only for a table that has key 1.
- Integer ids and numeric-string keys are unbounded. PHP's 64-bit limit on integer keys (longer digit strings stay string keys) is not modelled.
- Ids other than integers and strings (floats, booleans, null) are not modelled. Neither are names tables with non-string values.
- `get_called_class()` and the per-subclass static `$names`: each enumeration is its `names` table, passed to the static members.
- `DAOs.ObjectQuery.Sort` takes a string, so `sort(null)` cannot be written. The falsy `""` behaves the same way: it is never committed and a direction after it fails.
- PHP turns a canonical numeric property name into an integer key of the sort table and of the mapping, and the loop variable `$property` (and so `$field` on line 133) is then an int. The model keeps property names as strings. Key identity is the same, because two property names collide in PHP exactly when they are equal strings.
- The translation of a concatenation of two arbitrary filter lists is not stated. Only the one-expression step (`QueryTranslation.FilterClausesStep`) is stated.
