# gql: the SQL query builder and value serializer, in Dafny

This project models the string-producing core of the Go library gql
(package `gql`):

- **the value serializer** `Convert` (pkg/intfc_to_sql.go), which turns a
  host value into the text of an SQL literal: quoted and escaped strings,
  `X'..'` hex blobs, decimal integers, `true`/`false`, `NULL` for nil, for
  invalid nullable wrappers and for unknown types, raw `SqlReserved` text
  verbatim, and slices as parenthesised comma lists;
- **the query builder** `QueryBuilder` (pkg/mysql_builder.go), a mutable
  object whose fluent methods append tables, columns, predicates with their
  connectives, joins, grouping, ordering and rows, and whose `Query`
  compiles the collected state into one SELECT, INSERT, UPDATE, DELETE or
  CREATE TABLE statement;
- **the helpers of pkg/sql_funcs.go**: the `SqlOp`/`SqlTyp` enums, the
  `Count`/`CountDistinct`/`Sum` aggregates, the `Read`/`Create`/`Update`/
  `Delete` factories and the `Query(fn, alias)` subquery wrapper.

Files and modules:

| file | module | contents |
|---|---|---|
| text.dfy | `Text` | `strings.Join`, `strings.Trim(s, " ")`, decimal text of integers and lowercase hex; the last two with their inverses (`ParseInt`, `Unhex`) |
| values.dfy | `Values` | the `Value` datatype (one constructor per kind of value Convert tells apart), `Escape`/`Unescape`, `Convert` |
| sqlfuncs.dfy | `SqlFuncs` | `SqlOp`, `SqlTyp`, `FKType`, the aggregates |
| builder.dfy | `MysqlBuilder` | the specification functions of the clause compiler and of each statement kind, and the class `QueryBuilder` |
| factories.dfy | `Factories` | the factories and the subquery wrapper |
| scenarios.dfy | `Scenarios` | fluent call chains run on the class, with the exact statement each compiles to |

`QueryBuilder` is a Dafny class with the source's fields. Every fluent method
states its whole new state as `Snapshot() == old(Snapshot()).(field := ...)`.
The `BuilderState` datatype holds all the fields as one value. Every
predicate-adding method keeps the invariant `Valid()`, which says
`|wheres| == |ops|`.

`getWhereClauses` and the Create and Update branches of `Query` are loops in
the source. In the model they are methods with loops, proved equal to
specification functions: `WhereClauses`, `InsertSql` and `UpdateSql`.
`Query` is proved equal to `Compile(Snapshot(), order)`. Where the source
indexes an empty slice (`values[0]`, `tables[0]`), `Compile` gives `Panic`.

Go map iteration order is not fixed. For a row `OBJ = map<string, Value>`,
`Query` takes the key order as a parameter, `order`. The predicate
`KeyOrder(order, values[0])` requires it to list each key of row 0 exactly
once.

A callback `fn func(b Builder)` is given in the model as the sub-builder it
has already configured. For the callbacks of `Join`, `LeftJoin`, `RightJoin`,
`Having`, `WhereInQuery` and `WhereGroup` the source creates that builder as
`&QueryBuilder{qtyp: SqlTypRead}`, which `Factories.Nested` models. The
subquery wrapper `Query(fn, alias)` of pkg/sql_funcs.go:44 creates
`&QueryBuilder{}` instead (see "## Findings").

The source calls `interface_to_sql`, which none of the modelled files defines.
The model takes it to be `Convert`. Several names are used but not declared
in the core files: `SqlTypTable`, `FKType`, `FKCascade`, `FKSetNull`, `OBJ`
and `SqlReserved`. The model declares them: `SqlTypTable` as a fifth
statement kind, and `SqlReserved` as the `VRaw(content)` value.

Two behaviours of the code worth knowing:

- UPDATE and DELETE write their predicates after a bare ` WHERE `, without
  `1` and without the first predicate's connective
  (pkg/mysql_builder.go:349, 352). An UPDATE with one predicate renders
  ` WHERE id = 2` (`Scenarios.UpdateWhere`), and one with none ends in
  ` WHERE ` (`MysqlBuilder.BareWhere`).
- An invalid nullable wrapper gives `NULL`, never the empty text, so a slice
  of invalid wrappers gives `(NULL,NULL,...)`. Only an empty `SqlReserved`
  serializes to `""` and is skipped inside a slice (`Values.Convert`,
  `Values.SkipAnywhere`).

`Convert` keeps the source's escaping, which doubles no backslash; the
consequence is under "## Findings", and `Values.SafeEscape` is the escaping
that reads back for every string.

## Model

| member | source | states |
|---|---|---|
| Values.Escape | pkg/intfc_to_sql.go:22 | the escaped text never starts with a quote, and every quote in it is preceded by a backslash |
| Values.EscapeRoundTrip | pkg/intfc_to_sql.go:20-23 | undoing the `\'` replacement recovers the original string exactly |
| Values.EscapeNoQuote | pkg/intfc_to_sql.go:22 | text without single quotes is left unchanged by the escaping |
| Values.StringLiteral | pkg/intfc_to_sql.go:20-23 | a string becomes a literal in single quotes; every inner quote is preceded by a backslash; unescaping the inside gives the string back |
| Values.EscapeReadsWithoutBackslash | pkg/intfc_to_sql.go:20-23 | for a string without backslashes, MySQL reads the literal back as exactly the string and closes it at Convert's closing quote |
| Values.BackslashEndsLiteral | pkg/intfc_to_sql.go:20-23 | the string `\'x` is written `'\\'x'`, which MySQL reads as the literal `\` followed by `x'` outside it |
| Values.SafeEscape | pkg/intfc_to_sql.go:22 | the corrected escaping, which also doubles backslashes, is never shorter than its input |
| Values.SafeEscapeAgrees | pkg/intfc_to_sql.go:22 | on strings without backslashes the corrected escaping writes exactly what the source writes |
| Values.SafeLiteralReads | pkg/intfc_to_sql.go:20-23 | with the corrected escaping every string is read back exactly, and the literal closes at its own closing quote |
| Values.Quote | pkg/intfc_to_sql.go:22 | the quoting of strings; its contract is `Values.StringLiteral` |
| Values.Convert | pkg/intfc_to_sql.go:17-124 | the serialized text is empty exactly for an empty `SqlReserved` token (both directions); the per-case lemmas below state the rest |
| Values.BytesLiteral | pkg/intfc_to_sql.go:24-37 | a blob of n bytes becomes `X'` + 2n lowercase hex digits + `'`, and the digits decode to the blob |
| Values.IntLiteral | pkg/intfc_to_sql.go:76-78 | an integer becomes an optional minus sign and decimal digits, which parse back to the same integer |
| Values.NullableWrappers | pkg/intfc_to_sql.go:38-103 | each nullable wrapper gives `NULL` when not valid, and otherwise the text of its payload under the payload's own rule |
| Values.TimeAsString | pkg/intfc_to_sql.go:63-74 | a timestamp is quoted exactly like its formatted UTC text as a string |
| Values.Scalars | pkg/intfc_to_sql.go:46-77 | a bool gives `true` or `false` (lines 76-77); a float gives its formatted text unchanged and unquoted (lines 46-51) |
| Values.Fallbacks | pkg/intfc_to_sql.go:104-108 | nil and values of unknown type give `NULL`; `SqlReserved` content passes through verbatim |
| Values.SliceItems | pkg/intfc_to_sql.go:109-120 | the slice loop, accumulating text; specified by `Values.SliceItemsJoin` and `Values.SkipAnywhere` |
| Values.SliceLiteral | pkg/intfc_to_sql.go:109-120 | when no element gives the empty text, a slice is `(` + the element texts joined by `,` + `)` |
| Values.SliceItemsJoin | pkg/intfc_to_sql.go:111-119 | the slice loop's accumulated text equals the comma join of the element texts, by induction on the slice |
| Values.EmptySlice | pkg/intfc_to_sql.go:110-120 | an empty slice gives `()` |
| Values.SkipAnywhere | pkg/intfc_to_sql.go:111-119 | an element with empty text, at any position but the last, is dropped with its comma: the slice renders as if it were absent |
| Values.SkippedElement | pkg/intfc_to_sql.go:113-118 | the instance `[1, "", 2]` of `SkipAnywhere`: `(1,2)` |
| Values.TrailingEmpty | pkg/intfc_to_sql.go:111-119 | an element with empty text in last place adds nothing, but the comma after the element before it stays whenever that element was written |
| Values.TrailingComma | pkg/intfc_to_sql.go:113-118 | the instance `[1, ""]` of `TrailingEmpty`: `(1,)` |
| Text.Join | pkg/mysql_builder.go:307 | `strings.Join`; specified by `Text.JoinEnds`, `Text.JoinCons`, `Text.JoinSnoc` and `Text.JoinLeading` |
| Text.JoinEnds | pkg/mysql_builder.go:307 | the joined text is empty for no elements, and otherwise starts with the first element and ends with the last |
| Text.Hex | pkg/intfc_to_sql.go:26 | `hex.EncodeToString` gives two lowercase hex digits per byte |
| Text.HexRoundTrip | pkg/intfc_to_sql.go:26 | `hex.EncodeToString` is inverted by decoding its digit pairs |
| Text.IntText | pkg/intfc_to_sql.go:77 | the decimal text of an integer; specified by `Text.IntTextRoundTrip` |
| Text.IntTextRoundTrip | pkg/intfc_to_sql.go:82 | the decimal text of an integer is non-empty, has a minus sign exactly for negatives and digits elsewhere, and parses back to the integer |
| Text.TrimLeft | pkg/mysql_builder.go:308 | trimming removes a prefix made only of spaces, and the result does not start with a space |
| Text.TrimRight | pkg/mysql_builder.go:308 | trimming removes a suffix made only of spaces, and the result does not end with a space |
| Text.Trim | pkg/mysql_builder.go:308 | the trimmed text is no longer than the input and neither starts nor ends with a space |
| Text.TrimUnchanged | pkg/mysql_builder.go:308 | text that neither starts nor ends with a space is not changed by the trim |
| SqlFuncs.AliasSuffix | pkg/sql_funcs.go:22-24 | the alias part is empty exactly when no alias is given, and otherwise a space and the first alias |
| SqlFuncs.Count | pkg/sql_funcs.go:20-26 | the text is `COUNT(`, the name, `)`, then the alias part, at the stated positions |
| SqlFuncs.CountDistinct | pkg/sql_funcs.go:27-33 | the text is `COUNT(DISTINCT `, the name, `)`, then the alias part |
| SqlFuncs.Sum | pkg/sql_funcs.go:35-41 | the text is `SUM(`, the expression, `)`, then the alias part |
| SqlFuncs.OnlyFirstAlias | pkg/sql_funcs.go:20-41 | aliases after the first change none of the three aggregates |
| MysqlBuilder.Connective | pkg/mysql_builder.go:254-264 | each connective is one of `AND `, `OR `, `AND NOT `, and `OR ` and `AND NOT ` belong to exactly their own op |
| MysqlBuilder.Clauses | pkg/mysql_builder.go:250-266 | one rendered clause per predicate; the connective is omitted only for the first clause, and only when flag is false |
| MysqlBuilder.WhereClauses | pkg/mysql_builder.go:247-272 | getWhereClauses as a function: the clauses joined by single spaces; specified by the lemmas below |
| MysqlBuilder.WhereClausesEnds | pkg/mysql_builder.go:247-272 | no predicates give `""`; otherwise the text starts with the first clause (with its connective exactly when flag holds) and ends with the last predicate, so no space trails |
| MysqlBuilder.WhereClausesLeading | pkg/mysql_builder.go:252-265 | the flag=true text is the flag=false text with the first predicate's connective put in front |
| MysqlBuilder.WhereClausesSnoc | pkg/mysql_builder.go:250-270 | appending a predicate appends one space, its connective and the predicate to the text |
| MysqlBuilder.OneClause | pkg/mysql_builder.go:247-272 | a single predicate renders alone, with its connective only at the top level |
| MysqlBuilder.TwoClauses | pkg/mysql_builder.go:247-272 | two predicates render with one space between them; the second always has its connective |
| MysqlBuilder.ColumnsSection | pkg/mysql_builder.go:276-279 | with no columns the projection is `*` |
| MysqlBuilder.WhereSection | pkg/mysql_builder.go:284-287 | the WHERE section is empty exactly when there are no predicates |
| MysqlBuilder.GroupSection | pkg/mysql_builder.go:292-298 | GROUP BY appears exactly when there are groups; HAVING appears only then, and only for a non-empty having |
| MysqlBuilder.NumberSection | pkg/mysql_builder.go:299-306 | LIMIT and OFFSET appear exactly when positive, as the keyword and the decimal number |
| MysqlBuilder.ReadTail | pkg/mysql_builder.go:275-307 | the sections after `SELECT ` in the source's order; specified by the section functions and `MysqlBuilder.FilteredTail` |
| MysqlBuilder.FilteredTail | pkg/mysql_builder.go:275-307 | one table with predicates and nothing else gives `* FROM t WHERE 1 ` + the predicates at the top level |
| MysqlBuilder.ReadSql | pkg/mysql_builder.go:307-308 | the trimmed SELECT starts with `SELECT` and never ends with a space |
| MysqlBuilder.Selected | pkg/mysql_builder.go:307-308 | trimming `SELECT ` + any tail keeps the keyword and leaves no trailing space |
| MysqlBuilder.ReadSqlUntrimmed | pkg/mysql_builder.go:307-308 | when the text after `SELECT ` does not end in a space, the trim changes nothing |
| MysqlBuilder.FilteredSelect | pkg/mysql_builder.go:275-308 | one table with predicates and nothing else, the last predicate not ending in a space, gives `SELECT * FROM t WHERE 1 ` + the predicates at the top level |
| MysqlBuilder.CellText | pkg/mysql_builder.go:324 | a key missing from a row renders `NULL`; a present key renders its value's literal |
| MysqlBuilder.Cells | pkg/mysql_builder.go:321-329 | every row gives exactly one entry per key of row 0, in the key order |
| MysqlBuilder.Tuples | pkg/mysql_builder.go:320-331 | one tuple per row, in row order, all in the same key order |
| MysqlBuilder.InsertSql | pkg/mysql_builder.go:332 | an INSERT statement starts with `INSERT INTO ` |
| MysqlBuilder.UpdateSql | pkg/mysql_builder.go:335-349 | an UPDATE statement starts with `UPDATE ` |
| MysqlBuilder.DeleteSql | pkg/mysql_builder.go:351-353 | a DELETE statement starts with `DELETE FROM ` |
| MysqlBuilder.TableSql | pkg/mysql_builder.go:354-359 | a table definition starts with `CREATE TABLE ` and ends with `)` |
| MysqlBuilder.Assignments | pkg/mysql_builder.go:341-347 | one `key=value` pair per key of row 0, in iteration order |
| MysqlBuilder.Compile | pkg/mysql_builder.go:274-362 | Query panics exactly for a Create builder without rows or without a table, and for an Update builder without rows (both directions); otherwise the statement opens with its kind's keyword |
| MysqlBuilder.BareWhere | pkg/mysql_builder.go:349-353 | with no predicates, DELETE and UPDATE still end in ` WHERE ` |
| MysqlBuilder.TableConstraints | pkg/mysql_builder.go:354-359 | a definition without columns is `()`; the constraints follow the columns only when both lists are non-empty |
| MysqlBuilder.OnDelete | pkg/mysql_builder.go:49-56 | no option gives no clause; FKCascade renders `ON DELETE SET NULL` and FKSetNull renders `ON DELETE CASCADE`, as written |
| MysqlBuilder.QueryBuilder.constructor | pkg/sql_funcs.go:44 | `&QueryBuilder{}`: every field at its zero value; the kind is Create and the connective is AND |
| MysqlBuilder.QueryBuilder.Field | pkg/mysql_builder.go:30-33 | appends `name attributes` to the columns; nothing else changes |
| MysqlBuilder.QueryBuilder.Unique | pkg/mysql_builder.go:34-37 | appends `UNIQUE(k1, k2, ...)` to `orders`, the list the Table branch renders as constraints and a Read builder as ` ORDER BY ...`; nothing else changes |
| MysqlBuilder.QueryBuilder.Index | pkg/mysql_builder.go:38-41 | appends `INDEX(k1, k2, ...)` to `orders`, the list the Table branch renders as constraints and a Read builder as ` ORDER BY ...`; nothing else changes |
| MysqlBuilder.QueryBuilder.PrimaryKey | pkg/mysql_builder.go:42-45 | appends `PRIMARY KEY (key)` to `orders`, the list the Table branch renders as constraints and a Read builder as ` ORDER BY ...`; nothing else changes |
| MysqlBuilder.QueryBuilder.ForeignKey | pkg/mysql_builder.go:47-60 | appends the FOREIGN KEY ... REFERENCES text with its ON DELETE clause to `orders`, rendered as a constraint by the Table branch; nothing else changes |
| MysqlBuilder.QueryBuilder.Fill | pkg/mysql_builder.go:62-65 | replaces the rows; nothing else changes |
| MysqlBuilder.QueryBuilder.Columns | pkg/mysql_builder.go:67-70 | appends the columns; nothing else changes |
| MysqlBuilder.QueryBuilder.Count | pkg/mysql_builder.go:71-74 | replaces the projection with `COUNT(*) count`; nothing else changes |
| MysqlBuilder.QueryBuilder.Table | pkg/mysql_builder.go:75-78 | appends the table; nothing else changes |
| MysqlBuilder.QueryBuilder.Join | pkg/mysql_builder.go:80-90 | appends `JOIN t ON cond ` + the sub-builder's predicates, every one with its connective |
| MysqlBuilder.QueryBuilder.LeftJoin | pkg/mysql_builder.go:92-102 | the same, as a LEFT JOIN |
| MysqlBuilder.QueryBuilder.RightJoin | pkg/mysql_builder.go:104-114 | the same, as a RIGHT JOIN |
| MysqlBuilder.QueryBuilder.JoinUsing | pkg/mysql_builder.go:116-120 | appends `JOIN t USING(u)`; nothing else changes |
| MysqlBuilder.QueryBuilder.OrderBy | pkg/mysql_builder.go:134-137 | appends the clauses to the orders; nothing else changes |
| MysqlBuilder.QueryBuilder.GroupBy | pkg/mysql_builder.go:139-142 | appends the clauses to the groups; nothing else changes |
| MysqlBuilder.QueryBuilder.Having | pkg/mysql_builder.go:143-150 | replaces having with the sub-builder's predicates, the first one without its connective |
| MysqlBuilder.QueryBuilder.BitwiseAnd | pkg/mysql_builder.go:122-126 | appends `f & with = value` with the pending connective; keeps one connective per predicate; nothing else changes |
| MysqlBuilder.QueryBuilder.BitwiseOr | pkg/mysql_builder.go:128-132 | appends the bitwise-or test of f with `with` against value, with the pending connective; keeps the invariant |
| MysqlBuilder.QueryBuilder.Where | pkg/mysql_builder.go:152-156 | appends `f = <literal>` with the pending connective; keeps the invariant |
| MysqlBuilder.QueryBuilder.Find | pkg/mysql_builder.go:157-161 | appends `id = <literal>` with the pending connective; keeps the invariant |
| MysqlBuilder.QueryBuilder.WhereNot | pkg/mysql_builder.go:162-166 | appends `f != <literal>`; keeps the invariant |
| MysqlBuilder.QueryBuilder.WhereNull | pkg/mysql_builder.go:168-172 | appends `f IS NULL`; keeps the invariant |
| MysqlBuilder.QueryBuilder.WhereNotNull | pkg/mysql_builder.go:174-178 | appends `f IS NOT NULL`; keeps the invariant |
| MysqlBuilder.QueryBuilder.WhereBetween | pkg/mysql_builder.go:180-184 | appends `f BETWEEN <a> AND <b>`; keeps the invariant |
| MysqlBuilder.QueryBuilder.WhereGT | pkg/mysql_builder.go:186-190 | appends `f > <literal>`; keeps the invariant |
| MysqlBuilder.QueryBuilder.WhereGTE | pkg/mysql_builder.go:191-195 | appends `f >= <literal>`; keeps the invariant |
| MysqlBuilder.QueryBuilder.WhereLT | pkg/mysql_builder.go:197-201 | appends `f < <literal>`; keeps the invariant |
| MysqlBuilder.QueryBuilder.WhereLTE | pkg/mysql_builder.go:202-206 | appends `f <= <literal>`; keeps the invariant |
| MysqlBuilder.QueryBuilder.WhereIn | pkg/mysql_builder.go:208-212 | appends `f in (...)`, with the values serialized as one slice; keeps the invariant |
| MysqlBuilder.QueryBuilder.WhereInQuery | pkg/mysql_builder.go:214-222 | appends `f IN (<the sub-builder's SELECT>)`; keeps the invariant |
| MysqlBuilder.QueryBuilder.WhereGroup | pkg/mysql_builder.go:224-232 | appends the sub-builder's predicates in parentheses as one predicate, the first without its connective; keeps the invariant |
| MysqlBuilder.QueryBuilder.AddPredicate | pkg/mysql_builder.go:153-154 | appends one predicate and the current pending connective, which stays set; keeps the invariant |
| MysqlBuilder.QueryBuilder.Or | pkg/mysql_builder.go:234-237 | sets only the pending connective, to OR |
| MysqlBuilder.QueryBuilder.And | pkg/mysql_builder.go:238-241 | sets only the pending connective, to AND |
| MysqlBuilder.QueryBuilder.AndNot | pkg/mysql_builder.go:242-245 | sets only the pending connective, to AND NOT |
| MysqlBuilder.QueryBuilder.Top | pkg/mysql_builder.go:378-381 | sets only the limit |
| MysqlBuilder.QueryBuilder.Offset | pkg/mysql_builder.go:382-385 | sets only the offset |
| MysqlBuilder.QueryBuilder.First | pkg/mysql_builder.go:386-389 | sets only the limit, to 1 |
| MysqlBuilder.QueryBuilder.GetWhereClauses | pkg/mysql_builder.go:247-272 | the loop's text equals the specification `WhereClauses` |
| MysqlBuilder.QueryBuilder.Query | pkg/mysql_builder.go:274-362 | the statement equals `Compile` of the builder's state: one branch per kind, or Panic |
| MysqlBuilder.QueryBuilder.ReadQuery | pkg/mysql_builder.go:275-308 | the Read branch equals `ReadSql`: the sections in order, then trimmed |
| MysqlBuilder.QueryBuilder.InsertQuery | pkg/mysql_builder.go:310-332 | the Create branch: Panic without rows or tables, otherwise `InsertSql` |
| MysqlBuilder.QueryBuilder.RenderTuple | pkg/mysql_builder.go:321-330 | the inner loop builds the row's tuple in key order, with missing keys as `NULL` |
| MysqlBuilder.QueryBuilder.UpdateQuery | pkg/mysql_builder.go:335-349 | the Update branch: Panic without rows, otherwise `UpdateSql` |
| Factories.Read | pkg/sql_funcs.go:49-54 | a fresh builder of kind Read on exactly the given table, every other field empty |
| Factories.Create | pkg/sql_funcs.go:56-61 | a fresh builder of kind Create on exactly the given table |
| Factories.Update | pkg/sql_funcs.go:62-67 | a fresh builder of kind Update on exactly the given table |
| Factories.Delete | pkg/sql_funcs.go:68-73 | a fresh builder of kind Delete on exactly the given table |
| Factories.Nested | pkg/mysql_builder.go:225-227 | the builder a callback receives: kind Read, every other field empty |
| Factories.ReadAlone | pkg/sql_funcs.go:49-54 | `Read(t)` compiled with no further call is `SELECT * FROM t` |
| Factories.Parenthesised | pkg/sql_funcs.go:46 | the wrapper panics exactly when the inner statement does, and otherwise gives `(` + statement + `) ` + alias |
| Factories.Query | pkg/sql_funcs.go:43-47 | the wrapper as written compiles a builder of the zero kind, Create |
| Factories.SubqueryIsNeverSelect | pkg/sql_funcs.go:43-47 | as written the wrapper panics without rows or without a table, and with rows and a table wraps an INSERT; never a SELECT |
| Factories.ReadSubquery | pkg/sql_funcs.go:43-47 | the corrected wrapper wraps the configured builder's SELECT |
| Factories.ReadSubqueryIsSelect | pkg/sql_funcs.go:43-47 | the corrected wrapper's text is `(SELECT...` for every builder state |
| Scenarios.ReadAll | pkg/sql_funcs.go:49-54 | `Read(t).Query()` run on the class gives `SELECT * FROM t` |
| Scenarios.ReadWithOr | pkg/mysql_builder.go:152-156 | `Read(t).Where(f1,v1).Or().Where(f2,v2)` gives `SELECT * FROM t WHERE 1 AND f1 = <v1> OR f2 = <v2>` |
| Scenarios.StickyOr | pkg/mysql_builder.go:234-237 | after `Or()` every later predicate takes OR, the first included: `WHERE 1 OR f1 = <v1> OR f2 = <v2>` |
| Scenarios.GroupedOr | pkg/mysql_builder.go:224-232 | a WhereGroup of two null tests is one parenthesised predicate: `... OR (f2 IS NULL OR f3 IS NULL)` |
| Scenarios.TwoTuples | pkg/mysql_builder.go:332 | two rows render as their two tuples joined by `, ` |
| Scenarios.InsertTwoRows | pkg/mysql_builder.go:310-332 | `Create(t).Fill(r1, r2)` gives `INSERT INTO t(<keys>) VALUES(<r1>), (<r2>)`, both tuples in row 0's key order |
| Scenarios.UpdateWhere | pkg/mysql_builder.go:335-349 | `Update(t).Fill(row).Where(f,v)` gives `UPDATE t SET k=v, ... WHERE f = <v>`, with no `1 AND` |
| Scenarios.DeleteAll | pkg/mysql_builder.go:351-353 | `Delete(t)` with no predicate gives `DELETE FROM t WHERE ` |
| Scenarios.TableWithKey | pkg/mysql_builder.go:354-359 | a table with one field and its primary key gives `CREATE TABLE t(n a, PRIMARY KEY (n))` |
| Scenarios.SubqueryAsWritten | pkg/sql_funcs.go:43-47 | `Query(b => b.Table(t).WhereNull(f), alias)` as written panics |
| Scenarios.SubqueryCorrected | pkg/sql_funcs.go:43-47 | the corrected wrapper gives `(SELECT * FROM t WHERE 1 AND f IS NULL) alias` for the same callback |

## Left out

- `QueryRows`, `QueryRow`, `Exec`, `UseTx`, `UseDb` (pkg/mysql_builder.go:364-374, 391-428) are left out. They do database I/O through `database/sql`, and the `tx`/`db` fields are not modelled.
- pkg/transaction_manager.go, pkg/lock.go, pkg/types.go, pkg/builder.go and pkg/builder_test.go are not part of this model. They cover transactions, the network, a goroutine lock, JSON marshalling and an interface declaration. From types.go only the `Valid` flag and the payload of each nullable wrapper are folded into `Value`.
- Float formatting (`float_to_string`, `strconv.FormatFloat`) is not modelled. `VFloat` and `VNullFloat64` carry their already formatted text, and Convert emits it unchanged.
- Time formatting is not modelled. `VTime` and `VNullTime` carry their already formatted UTC text. Convert quotes it by the string rule, as the source does through its recursive call.
- `%v` for Go's fixed-width integer kinds is not modelled bit by bit. `VInt` holds an unbounded integer and gives its decimal text, which is what `%v` prints for every integer kind, so width does not change the text. A `bool` prints `true` or `false`, which is `VBool`.
- Map iteration order is not modelled. Go's random order of `range *b.values[0]` is the `order` parameter of Query, constrained by `KeyOrder`.
- Callbacks are not modelled as closures. Each `fn func(b Builder)` is replaced by the sub-builder it configured. The callback's builder and the outer builder are required to be different objects.
- Aliasing through `*OBJ` is not modelled. Rows are map values, so a row changed through its `*OBJ` after `Fill` is not reflected.
- The unused `ok` slice of the Update branch (pkg/mysql_builder.go:336, 348) is left out, because it is never read.
- The final `return ""` of Query (pkg/mysql_builder.go:361) is left out. `SqlTyp` is a `uint8` with four declared constants (pkg/sql_funcs.go:11-18) plus `SqlTypTable`; another value would reach that line, but nothing in the library sets one, so the model's `SqlTyp` has exactly the five kinds.
- A nil row is not modelled. `Fill` takes `*OBJ` references, and a nil one panics at `*b.values[0]` or `(*item)[key]` (pkg/mysql_builder.go:312, 324, 340); rows in the model are map values, never nil.
- A nil `*bytes.Buffer` is not modelled. Convert calls `d.Bytes()` on it (pkg/intfc_to_sql.go:34-36), which panics; `VBytes` always carries a byte sequence.
- Scenarios.ReadWithOr: requires the last literal not to end in a space. Otherwise the final `strings.Trim` would cut that space too, and the closed form would not hold. `MysqlBuilder.ReadSql` states the general case.
- Scenarios.StickyOr: requires the last literal not to end in a space, for the same reason.
- MysqlBuilder.FilteredSelect: requires the last predicate not to end in a space. The final `strings.Trim` (pkg/mysql_builder.go:308) would cut that space too, and the closed form would not hold.
- Scenarios.ReadAll: requires the table name not to end in a space, for the same reason.
- Factories.ReadAlone: requires the table name not to end in a space, for the same reason.
- Text.TrimRight: together with Text.TrimLeft it says Trim removes exactly the outer spaces. No single lemma states that the untrimmed text is the trimmed one with spaces around it.

## Findings

| source | as written | input that shows it | evidently intended | confidence | as-written member | corrected member |
|---|---|---|---|---|---|---|
| pkg/intfc_to_sql.go:22 | strings (and valid NullStrings, line 41) are quoted by escaping `'` as `\'` only; a backslash is copied as it is | the string `\'x` gives `'\\'x'`; with MySQL's default backslash escapes that is the literal `\`, then `x'` outside any literal | backslashes are doubled too, so every string is read back as itself | not executed | Values.BackslashEndsLiteral | Values.SafeLiteralReads |
| pkg/sql_funcs.go:43-47 | `Query(fn, alias)` configures `&QueryBuilder{}`, whose kind is the zero value `SqlTypCreate`, so `b.Query()` compiles an INSERT (and indexes `values[0]`) | `Query(func(b Builder){ b.Table("t").WhereNull("f") }, "x")`: no rows, so `b.values[0]` panics | the sub-builder has kind `SqlTypRead`, as every callback builder in pkg/mysql_builder.go does, giving `(SELECT * FROM t WHERE 1 AND f IS NULL) x` | not executed | Factories.SubqueryIsNeverSelect, Scenarios.SubqueryAsWritten | Factories.ReadSubqueryIsSelect, Scenarios.SubqueryCorrected |
