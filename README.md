# Firebird adapter model

This project models the sequential logic of `Utilities/Firebird.cs` from
APSIM.Shared. That file is the adapter between the APSIM tabular-data
interface and an embedded Firebird database engine. The model covers:

- **`ColumnTyping`** (`column.dfy`): the private `Column` accumulator. It
  infers one type for a result column from the entries appended row by row,
  then converts an entry back when it is read. It is a class with the
  source's two fields, `dataType` and `values`. Its invariant `Valid()`
  says the tag is always the fold of the transition table (`Step`) over the
  stored entries (`TagOf`). On top of that fold the module proves that the
  tag only widens, that string absorbs every later append, and closed forms
  for when the tag is string or unset. It also proves read-back facts for
  int-then-double columns, byte columns, and text and date round trips.
- **`Statements`** (`statements.dfy`): the SQL text the adapter builds
  itself. This is the parameterised `INSERT` (`CreateInsertSQL`, two builder
  loops) and the `CREATE TABLE` text (the builder loop of `CreateTable`).
  It also covers the `[`/`]` to `"` normalisation (`AdjustQuotedFields`) and
  the DDL type name of a runtime value (`GetDBDataTypeName`). Each builder
  loop is a method proved equal to a declarative function. Properties are
  then proved of those functions: placeholders line up with columns, the
  column definitions split back in order, and normalisation is idempotent
  and leaves no bracket.
- **`Binding`** (`binding.dfy`): the first-match type dispatch of
  `BindParametersAndRunQuery`. It maps each boxed value to a driver
  parameter `@i` with a parameter type and a bound value.
- **`ColumnRemoval`** (`column_removal.dfy`): the retained-column list of
  `DropColumns` (`List.RemoveAll`), the quoted comma list it accumulates
  from null, and the five statements it issues. Their effect is proved on a
  small interpreter over a schema (table name to ordered column list). The
  interpreter gives the statements the meaning their text states: `BEGIN`
  and `END` change nothing, `ALTER TABLE ... RENAME TO` renames a table, and
  `CREATE TABLE ... AS SELECT` copies the selected columns. The result is
  proved for an engine with these semantics, not for Firebird's own
  dialect: the table ends with exactly the retained columns, in their
  original order, and no `_old` table remains.
- **`Adapter`** (`firebird.dfy`): the connection façade as a class. Its
  fields are the open/closed state, the read-only flag, an abstract catalog
  (table names, and the columns of each table), and a ghost log of the
  statements executed through `ExecuteNonQuery` or with bound parameters.
  Queries that return rows are not recorded. `ExecuteNonQuery`,
  `CreateTable`, `BindParametersAndRunQuery`, `InsertRows` and
  `DropColumns` are specified by exactly what they append to the log.

`Wrappers`, `Strings` and `Values` hold the shared pieces:

- `Option`/`Result`/`Outcome`.
- `Join`/`Split`, decimal `ToString` of a natural number, character replace
  and ASCII upper-casing.
- The boxed runtime values (`Obj`) and a `Culture` record. The record holds
  the date parse and the date, int and double formatting as function-valued
  parameters.

Points of the code the model keeps as written:

- `GetDBDataTypeName` returns null for a null value (line 542). Its
  `"INTEGER"` branch for a missing type (line 547) cannot be reached,
  because every non-null value has a runtime type.
- The binder's fallback binds `values[i] as string` (line 346). For a value
  that is not a string this is a null text parameter.
- The date test uses the format `yyyy-MM-dd hh:mm:ss` (line 185), and `hh`
  is .NET's 12-hour field. The model keeps the parse abstract
  (`Culture.parseExact`).
- `addTextValue` and `addByteArrayValue` accept null (lines 176, 182). A
  null string fails the date parse, so it sets the tag to string and stores
  null. A null array sets an unset tag to byte[] and stores null. The model
  carries these payloads as `Option`s. A column can therefore hold only
  null entries and still be tagged string or byte[]
  (`ColumnTyping.NullPayloadsMoveTag`).

## Model

| member | source | states |
|---|---|---|
| ColumnTyping.Column.constructor | Utilities/Firebird.cs:157-161 | a new column has no tag and no entries, and satisfies the tag invariant |
| ColumnTyping.Column.AddIntValue | Utilities/Firebird.cs:163-168 | appends exactly one int entry at the end; the tag becomes int only when it was unset, otherwise it is unchanged; the tag invariant is kept |
| ColumnTyping.Column.AddDoubleValue | Utilities/Firebird.cs:170-175 | appends exactly one double entry; an unset or int tag becomes double, any other tag is unchanged; the tag invariant is kept |
| ColumnTyping.Column.AddByteArrayValue | Utilities/Firebird.cs:176-181 | appends exactly one byte-array entry, null or not; an unset tag becomes byte[], any other tag is unchanged; the tag invariant is kept |
| ColumnTyping.Column.AddTextValue | Utilities/Firebird.cs:182-196 | appends the parsed date when the text has the exact date pattern, else the text itself (null for a null string); a date sets the tag only when unset, a non-date or null text sets string unconditionally; the tag invariant is kept |
| ColumnTyping.Column.AddNull | Utilities/Firebird.cs:201-204 | appends a null entry and leaves the tag unchanged |
| ColumnTyping.Column.GetValue | Utilities/Firebird.cs:211-231 | succeeds exactly for an index within the entries; an index at or past the count fails with "not enough values"; a stored null (from `addNull`, a null string or a null array) reads as DBNull; under a byte[] tag the stored entry is returned unchanged |
| ColumnTyping.OnlyWidens | Utilities/Firebird.cs:163-204 | whatever is appended after a prefix, the final tag equals the prefix's tag, or the prefix's tag was unset, or int widened to double, or the final tag is string |
| ColumnTyping.StringAbsorbs | Utilities/Firebird.cs:182-196 | once the tag is string, no sequence of appends changes it |
| ColumnTyping.DoubleNeverNarrows | Utilities/Firebird.cs:170-175 | once the tag is double it is never int again: it stays double or becomes string |
| ColumnTyping.TagIsStringIff | Utilities/Firebird.cs:182-196 | the tag is string if and only if some appended text, a null string included, was not an exact date |
| ColumnTyping.TagIsUnsetIff | Utilities/Firebird.cs:163-204 | the tag is unset if and only if every entry was appended by `addNull` |
| ColumnTyping.TagFromFirstEntry | Utilities/Firebird.cs:163-196 | without non-date text, the first entry not appended by `addNull` fixes the tag (a null array included), and the only later change is int to double when some double was appended |
| ColumnTyping.IntsThenDoubleReadAsDouble | Utilities/Firebird.cs:170-220 | a column of ints and nulls with a later double is tagged double, and each earlier int reads back through the double conversion |
| ColumnTyping.ByteColumnReadsBack | Utilities/Firebird.cs:176-224 | a column of byte arrays and nulls is tagged byte[]; every byte array reads back exactly as stored, and a null array as DBNull |
| ColumnTyping.TextRoundTrip | Utilities/Firebird.cs:182-229 | appended text in a column that ends up string reads back as the same text, provided the culture formats a parsed date back to its source text |
| ColumnTyping.DateRoundTrip | Utilities/Firebird.cs:182-222 | an exact-date text in a column that ends up DateTime reads back as the parsed date |
| ColumnTyping.PlainTextForcesString | Utilities/Firebird.cs:191-195 | a text that is not an exact date, or a null string, makes the final tag string whatever follows |
| ColumnTyping.NullPayloadsMoveTag | Utilities/Firebird.cs:176-216 | a null string and a null array are stored as null entries that read back as DBNull under any tag, yet alone they tag a column string and byte[] respectively |
| Statements.CreateInsertSQL | Utilities/Firebird.cs:475-502 | the built text equals `INSERT INTO t(` + the comma-joined double-quoted column names + `) VALUES (` + the comma-joined `@1`..`@n` + `)` |
| Statements.AppendQuotedNames | Utilities/Firebird.cs:482-489 | the first builder loop appends the comma-joined quoted names, a comma before every name but the first |
| Statements.AppendPlaceholders | Utilities/Firebird.cs:492-497 | the second builder loop appends `@1` to `@n`, comma-separated |
| Statements.PlaceholderInjective | Utilities/Firebird.cs:496 | two positions with the same placeholder text are the same position |
| Statements.InsertPlaceholdersCount | Utilities/Firebird.cs:492-497 | for one or more columns the VALUES list splits into exactly that many placeholders, the k-th being `@k+1` |
| Statements.InsertPlaceholdersMatchColumns | Utilities/Firebird.cs:482-497 | for one or more comma-free names the column list splits into the quoted names in order, aligned with the placeholders, so placeholder k stands for column k |
| Statements.InsertExample | Utilities/Firebird.cs:475-502 | table `T` with columns `a`, `b` gives exactly `INSERT INTO T("a","b") VALUES (@1,@2)` |
| Statements.CreateTableText | Utilities/Firebird.cs:563-580 | succeeds if and only if there are at least as many types as names; the text is then `CREATE TABLE t (` + the comma-joined definitions + `)`; otherwise it fails with an index-out-of-range error |
| Statements.CreateTableColumnsInOrder | Utilities/Firebird.cs:565-580 | for one or more comma-free names and at least as many comma-free types, the column list splits back into one `"name" TYPE` per column in the given order, a null type read as `INTEGER` |
| Statements.AdjustQuotedFields | Utilities/Firebird.cs:589-592 | same length; every `[` and `]` becomes `"` and every other character is unchanged; no bracket remains |
| Statements.AdjustQuotedFieldsIdempotent | Utilities/Firebird.cs:589-592 | normalising twice gives the same text as normalising once |
| Statements.AdjustQuotedFieldsKeepsBracketFree | Utilities/Firebird.cs:589-592 | text without brackets passes through unchanged |
| Statements.GetDBDataTypeName | Utilities/Firebird.cs:537-558 | null gives null, and only null does; DateTime gives TIMESTAMP, Int32 INTEGER, Single FLOAT and Double DOUBLE PRECISION, each if and only if; any other value gives VARCHAR(50) |
| Statements.CreateTableFromSamples | Utilities/Firebird.cs:537-576 | feeding the type names of sample values to the create-table text, a null sample and an int sample both give an `INTEGER` column |
| Binding.Bind | Utilities/Firebird.cs:310-346 | the bound value has the shape its parameter type expects; the type is text if and only if the value is not an int, float, double or byte array; null and DBNull bind as empty text; a value of any other type binds as null text |
| Binding.NativeValuesUnchanged | Utilities/Firebird.cs:325-344 | an int, float, double or byte array is bound with its value unchanged, and no other value is bound natively |
| Binding.EnumBindsAsName | Utilities/Firebird.cs:314-319 | an enum binds as the text of its name, not as a native integer |
| Binding.Parameters | Utilities/Firebird.cs:308-347 | one parameter per value |
| Binding.BindParameters | Utilities/Firebird.cs:308-347 | the loop builds, in array order, parameter `@i+1` bound by the dispatch for value i |
| Binding.ParameterNamesArePlaceholders | Utilities/Firebird.cs:308-347 | the parameter names are exactly the insert statement's placeholders `@1`..`@n`, in order, and no two coincide |
| Binding.NullBindsAsEmptyText | Utilities/Firebird.cs:310-313 | a null or DBNull at position i gives parameter `@i+1` of type text with value `""` |
| ColumnRemoval.WithoutLength | Utilities/Firebird.cs:423 | removal never adds a column |
| ColumnRemoval.WithoutMembers | Utilities/Firebird.cs:423 | a name is retained if and only if it is a column and not among the removed names (exact case) |
| ColumnRemoval.WithoutConcat | Utilities/Firebird.cs:423 | removal distributes over concatenation, so retained columns keep their relative order |
| ColumnRemoval.WithoutNothing | Utilities/Firebird.cs:423 | removing no names keeps every column |
| ColumnRemoval.WithoutIdempotent | Utilities/Firebird.cs:423 | removing the same names twice is removing them once |
| ColumnRemoval.RemoveAll | Utilities/Firebird.cs:419-423 | the in-place `RemoveAll` leaves exactly the columns not removed, in order |
| ColumnRemoval.QuotedList | Utilities/Firebird.cs:425-431 | the accumulated list stays null if and only if no column is retained; otherwise it is the comma-joined double-quoted names |
| ColumnRemoval.DropColumnsEffect | Utilities/Firebird.cs:432-446 | on a schema holding the table and no `_old` table, the five statements succeed and leave the table with exactly the retained columns in order, every other table unchanged, and no `_old` table |
| ColumnRemoval.DropColumnsExample | Utilities/Firebird.cs:432-446 | removing `b` from `T(a, b, c)` leaves `T(a, c)` and nothing else |
| ColumnRemoval.LeftoverOldTableBlocks | Utilities/Firebird.cs:437 | a leftover `_old` table makes the rename fail, so the removal stops there |
| ColumnRemoval.DropScriptBracketFree | Utilities/Firebird.cs:434-445 | for bracket-free names, normalising each removal statement before execution leaves it as written |
| Adapter.DropLogText | Utilities/Firebird.cs:434-445 | for bracket-free names, the logged removal statements are exactly `BEGIN`, `ALTER TABLE "T" RENAME TO "T_old"`, `CREATE TABLE "T" AS SELECT <quoted list> FROM "T_old"`, `DROP TABLE "T_old"`, `END` |
| Adapter.Firebird.constructor | Utilities/Firebird.cs:24-36 | a new adapter is closed and not read-only, has executed nothing, and sees the given catalog |
| Adapter.Firebird.OpenDatabase | Utilities/Firebird.cs:42-51 | succeeds if and only if the connection was already open or the engine accepts it; on success it is open with the requested read-only flag; on failure it stays closed and the flag is unchanged |
| Adapter.Firebird.CloseDatabase | Utilities/Firebird.cs:89-95 | the connection is closed afterwards |
| Adapter.Firebird.ExecuteNonQuery | Utilities/Firebird.cs:125-152 | succeeds if and only if open; then exactly the normalised statement is appended to the log; when closed it fails with "not open" and the log is unchanged |
| Adapter.Firebird.ExecuteQuery | Utilities/Firebird.cs:239-273 | succeeds if and only if open, handing the engine the normalised query; when closed it fails with "not open" |
| Adapter.Firebird.GetTableNames | Utilities/Firebird.cs:384-402 | the catalog's table list when open, empty when closed |
| Adapter.Firebird.GetColumnNames | Utilities/Firebird.cs:356-380 | the catalog's columns for the upper-cased name when open; empty when closed or when the table is unknown |
| Adapter.Firebird.TableExists | Utilities/Firebird.cs:406-410 | true if and only if open and the exact-case name is among the table names |
| Adapter.Firebird.CreateTable | Utilities/Firebird.cs:561-582 | fewer types than names fails before anything is executed; otherwise it succeeds if and only if open, appending exactly the create-table text, normalised |
| Adapter.Firebird.BindParametersAndRunQuery | Utilities/Firebird.cs:301-351 | succeeds if and only if open; then the statement is appended once with one parameter per value; when closed nothing is appended |
| Adapter.Firebird.InsertRows | Utilities/Firebird.cs:511-532 | succeeds with 0 if and only if open; then the one insert statement is appended once per row, in row order, with that row's parameters; when closed nothing is appended |
| Adapter.Firebird.ExecuteDropScript | Utilities/Firebird.cs:434-445 | the five removal statements, the copy built from the accumulated quoted list, are appended through `ExecuteNonQuery`, in order |
| Adapter.Firebird.RetainedColumns | Utilities/Firebird.cs:419-431 | the retained list is the table's columns less the removed names; the accumulated list stays null exactly when nothing is retained and is otherwise the quoted names joined by commas; columns remain only on an open connection |
| Adapter.Firebird.DropColumns | Utilities/Firebird.cs:417-447 | with the table's columns less the removed names as the retained list: when it is non-empty exactly the five removal statements are appended, otherwise nothing is |

## Left out

- The Firebird driver (`FbConnection`, `FbCommand`, `FbDataAdapter`, `Prepare`, `CreateDatabase`) is a foreign library. The engine is replaced by the statement log and an abstract catalog.
- Connection-string assembly (`GetConnectionString`, lines 61-86) is configuration only.
- Transactions and the lock around `Commit` in `InsertRows` (lines 527-530) are concurrency and driver state, so they are not modelled.
- Date parsing and formatting (`TryParseExact` at line 185, the `ToString` formats at lines 228 and 323) are function-valued fields of `Culture`. `AsSQLString` (lines 599-603) is date formatting only and is not modelled.
- `Convert.ToInt32`, `ToDouble` and `ToDateTime` (lines 218-222) are culture and floating-point conversions. A conversion of an entry not already of the tag's type is the symbolic `Converted(tag, entry)`, and its failures are not modelled.
- Double and float payloads are bit patterns and dates are tick counts. No arithmetic is done on them.
- Exception message texts and the `FirebirdException` class are not modelled. Failures are error values.
- `ExecuteQueryReturnInt` (lines 281-295) and `FieldExists` (lines 455-467) depend on rows returned by the engine and are not modelled.
- The catalog SQL text of `GetColumnNames` and `GetTableNames` (lines 362-364, 389-393) is not modelled. Their results come from the abstract catalog, which DDL executed through the log does not update.
- Null table and column names, null type lists and null value arrays (.NET null references) are not modelled. Every name is a string.
- Queries that return rows (`ExecuteQuery`, and the catalog queries of `GetColumnNames` and `GetTableNames` at lines 366 and 395) are not recorded in the log. So `DropColumns`' log shows only its five statements, not the column query that precedes them (line 419).
- ColumnTyping.Column.AddByteArrayValue: stores the array's contents, not the caller's array reference (line 180). Later changes the caller makes through that reference are not modelled.
- Adapter.Firebird.ExecuteQuery: does not model the returned rows, nor that the command is run twice (lines 252-254), nor either run in the log. It states only the text the engine is given.
- Adapter.Firebird.ExecuteNonQuery: does not model a failure of the statement itself inside the engine (lines 137-140), because the engine is abstract. Only the closed-connection failure is modelled.
- Adapter.Firebird.OpenDatabase: does not model the creation of the database file (line 46). Whether the engine accepts the connection is a parameter.
- Adapter.Firebird.GetColumnNames: does not model .NET's culture-aware `ToUpper`. Upper-casing is ASCII only.
- Adapter.Firebird.DropColumns: does not model a failure part-way through the five statements. The consequence of a leftover `_old` table is stated separately by `ColumnRemoval.LeftoverOldTableBlocks`.
- The catalog is looked up under the upper-cased name (lines 363-366), while the removal statements name the table in quotes with the caller's exact case (lines 437-443). No lemma ties the catalog to the schema of `ColumnRemoval.DropColumnsEffect`. A table created unquoted as `t` (line 579) is stored as `T`, so `DropColumns("t")` finds `T`'s columns and then renames a quoted `"t"` that does not exist. The removal is proved correct only when the name is given as stored.
- Quoting is verbatim. A name containing `"`, `[`, `]` or `,` is passed through as in the source, and the split-back lemmas require comma-free names.
