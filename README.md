# Moth.Database.MsSql in Dafny

A Dafny model of the MS SQL Server provider of the Moth data-access library. The
provider does three things, and the model covers each:

- It compiles a backend-neutral `ExpressionQuery` (source types or a sub-query,
  filters, sorts, projections, partitions) into one T-SQL `SELECT`. This is
  `ExpressionQueryExtension`, modelled exactly as written.
- It builds the `INSERT ... OUTPUT INSERTED.*`, `UPDATE ... OUTPUT INSERTED.*` and
  `DELETE ... OUTPUT DELETED.*` statements for an entity. Columns are qualified by the
  table name, values are bound as ordinal parameters `@0`, `@1`, ..., and the row key is
  `@UId`.
- It binds parameters to a `SqlCommand`, sending a null as `DBNull`. It maps each
  returned row back to an `Entity`, turning `DBNull` into null. `DataRowExtension.ToEntity`
  maps a `DataRow` and keeps each value as it is.

The server is not modelled. The rows a command returns are an input to the
operations that read them.

| file | module | models |
|---|---|---|
| `wrappers.dfy` | `Wrappers` | `Option` and `Result` |
| `strings.dfy` | `Strings` | `String.Join`, `Trim`, `TrimEnd`, `TrimStart`, `TrimStart(char)`, `String.Format` with `{0}`/`{1}`, decimal rendering of integers |
| `data.dfy` | `Data` | entities, properties, values (null and `DBNull` are separate), parameters, CLR types, and the exceptions as a `Fault` value |
| `expressions.dfy` | `Expressions` | the expression tree and `ExpressionQuery` |
| `sql_generation.dfy` | `SqlGeneration` | `ExpressionQueryExtension`: `ToSelectQuery` as a function and as the method with its partition loop |
| `sql_generation_properties.dfy` | `SqlGenerationProperties` | what the generated text looks like, proved |
| `ms_sql_database.dfy` | `MsSqlDatabase` | the CRUD statements; the `SqlCommand` class and the `CreateCommand` loop; the `Read` loops; `ReadByExpression` renaming the query's parameters in place |
| `data_row_extension.dfy` | `DataRowExtension` | `ToEntity` |

Exceptions become results:

| exception | `Fault` |
|---|---|
| `NotImplementedException` (a method expression in an expression position) | `NotImplemented` |
| `ArgumentOutOfRangeException` (an unknown node kind) | `ArgumentOutOfRange` |
| `NullReferenceException` (calling `ToString()` on the null value of a numeric constant, or a `Take`/`Skip` without an argument) | `NullReference` |
| indexing an entity by a name it lacks | `KeyNotFound` |

## Behaviour worth knowing

- **Partitions wrap once.** The code wraps the query a single time, as
  `* FROM (...) AS P{q}` (MsSqlDatabase.cs:174). After that, each entry only adds
  text before or after. `PartitionsOnlyAffix` proves this.
  - `Skip(a)` then `Take(b)` gives `SELECT TOP b * FROM (...) AS Pq WHERE RowIdq > a`,
    one `SELECT` with no nested query (`SkipThenTakeShape`).
  - `Skip` alone leaves a text that does not start with `SELECT` (`SkipShape`).
  - A partition entry that is not a method expression still causes the wrap
    (`PartitionedQueryShape`, `NonMethodEntriesIgnored`).
- **Or renders like And.** `Or` has the template `({0} & {1})`, the same as `And`
  (line 275, `OrRendersAsAnd`).
- **Double spaces survive.** Without projections the window is written `OVER (`
  with a space; with projections it is `OVER(`. The clauses are joined as
  `"{0} {1} {2} {3}"` and only the two ends are trimmed, so an empty WHERE clause
  leaves two spaces before ORDER BY. For example, one sort over one type gives
  `SELECT ROW_NUMBER() OVER (ORDER BY s) AS RowIdq, * FROM [T]  ORDER BY s`
  (`OneTypeOneSort`).
- **Delete and Update need UId.** Both index the entity by `UId`, which throws on an
  entity without one. They are not total over entity shapes (`DeleteBindsUId`,
  `UpdateBindsEveryProperty`).
- **Update can send an empty SET list.** An entity with only `Id` and `UId` gives the
  text `SET  OUTPUT` (`UpdateEmptySetExample`).
- **Reads are not materialised inside the command's scope.** `ReadByText` and
  `ReadByExpression` return `Read`'s lazy sequence from inside the `using` block. Only
  `FirstOrDefault` and `ToList` in the callers drain it. The model reads every row
  eagerly (see "Left out").

## Model

| member | source | states |
|---|---|---|
| `Data.Item` | Moth.Database.MsSql/MsSqlDatabase.cs:46 | `entity[name]` succeeds exactly when some property has that name. Its value is the first such property's value. Otherwise it fails with `KeyNotFound(name)`. |
| `Strings.TrimEnd` | Moth.Database.MsSql/MsSqlDatabase.cs:171 | The result is a prefix of the input that is empty or ends in a non-white-space character. Everything removed is white space. |
| `Strings.TrimStart` | Moth.Database.MsSql/MsSqlDatabase.cs:171 | The result is a suffix of the input that is empty or starts with a non-white-space character. Everything removed is white space. |
| `Strings.TrimStartChar` | Moth.Database.MsSql/MsSqlDatabase.cs:229 | `TrimStart('@')` removes only leading copies of the character, and the result does not start with it. |
| `Strings.FormatTemplate` | Moth.Database.MsSql/MsSqlDatabase.cs:256 | `String.Format` on a template `open{0}middle{1}close` whose literal parts hold no opening brace puts the first argument in the first hole and the second in the second. |
| `Strings.NatToStringInjective` | Moth.Database.MsSql/MsSqlDatabase.cs:33 | Different indexes render as different decimal texts, so ordinal parameter names never collide. |
| `Strings.ParseNatRoundTrip` | Moth.Database.MsSql/MsSqlDatabase.cs:33 | Parsing the decimal text of `i` gives back `i`. |
| `SqlGeneration.RenderEach` | Moth.Database.MsSql/MsSqlDatabase.cs:163-165 | Rendering a list succeeds exactly when every element renders. On success element i becomes text i. |
| `SqlGeneration.PartitionFailurePersists` | Moth.Database.MsSql/MsSqlDatabase.cs:175-208 | Once an entry of the partition loop throws, the loop's outcome is that exception, whatever the later entries are. |
| `SqlGeneration.RewritePartitions` | Moth.Database.MsSql/MsSqlDatabase.cs:175-208 | The `foreach` over the partitions computes `ApplyPartitions`, the entries applied in list order, including the NullReference of a `Take`/`Skip` without an argument. |
| `SqlGeneration.ToSelectQuery` | Moth.Database.MsSql/MsSqlDatabase.cs:153-212 | The method, with its recursive sub-query compilation and its partition loop, returns `SelectQuery(q)`, errors included. |
| `SqlGeneration.ToTableName` | Moth.Database.MsSql/MsSqlDatabase.cs:259-262 | Defines `[namespace.Name]`. `TableNameInjective` and `MemberColumnOfTable` state its properties. |
| `SqlGeneration.ToSqlBinaryFormat` | Moth.Database.MsSql/MsSqlDatabase.cs:264-288 | Defines the operator table. `BinaryTemplateCorrect` compares it with an independent symbol table. |
| `SqlGeneration.TypeIsNumber` | Moth.Database.MsSql/MsSqlDatabase.cs:295-314 | Defines the eleven numeric type codes. `IntegerQuotedIffNotNumber` states its effect. |
| `SqlGeneration.ToSqlConstantString` | Moth.Database.MsSql/MsSqlDatabase.cs:290-293 | Defines constant rendering. `ConstantRendering` and `ConstantExamples` state its properties. |
| `SqlGeneration.ToSqlStatement` | Moth.Database.MsSql/MsSqlDatabase.cs:214-249 | Defines expression rendering. `RenderingFaults`, `BinaryRendering`, `ParameterMarkerMatchesBinding`, `OrderExtendsMember` and `MemberColumnOfTable` state its properties. |
| `SqlGeneration.BinaryToSqlStatement` | Moth.Database.MsSql/MsSqlDatabase.cs:251-257 | Defines binary rendering. `BinaryRendering` states it. |
| `SqlGeneration.CoreQuery` | Moth.Database.MsSql/MsSqlDatabase.cs:155-171 | Defines the assembled query before partitions. `CoreQueryShape`, `RowNumberWindow` and `TrailingOrderBy` state its properties. |
| `SqlGeneration.ApplyPartitions` | Moth.Database.MsSql/MsSqlDatabase.cs:175-208 | Defines the partition loop. `PartitionsOnlyAffix` and the `*Shape` lemmas state its properties. |
| `SqlGeneration.SelectQuery` | Moth.Database.MsSql/MsSqlDatabase.cs:153-212 | Defines ToSelectQuery as a function. `ToSelectQuery` is proved equal to it, and `PartitionedQueryShape`, `NoPartitionsUnchanged` and `SubQueryReplacesTypes` state its properties. |
| `SqlGenerationProperties.BinaryTemplateCorrect` | Moth.Database.MsSql/MsSqlDatabase.cs:264-288 | Every operator's template, formatted with two operands, gives `(left op right)` with the operator's T-SQL symbol, or `POWER(left, right)`. |
| `SqlGenerationProperties.ArithmeticTemplates` | Moth.Database.MsSql/MsSqlDatabase.cs:268-273 | The same for `+ / - * %`. |
| `SqlGenerationProperties.BitwiseTemplates` | Moth.Database.MsSql/MsSqlDatabase.cs:274-276 | The same for `&`, `^` and Or, which is written `&`. |
| `SqlGenerationProperties.LogicalTemplates` | Moth.Database.MsSql/MsSqlDatabase.cs:277-278 | The same for `AND` and `OR`. |
| `SqlGenerationProperties.EqualityTemplates` | Moth.Database.MsSql/MsSqlDatabase.cs:279-280 | The same for `=` and `<>`. |
| `SqlGenerationProperties.OrderingTemplates` | Moth.Database.MsSql/MsSqlDatabase.cs:281-284 | The same for `> >= < <=`. |
| `SqlGenerationProperties.BinaryRendering` | Moth.Database.MsSql/MsSqlDatabase.cs:251-257 | The left operand is rendered first and its failure is the result; then the right one. With both rendered, the result is that operator's parenthesised rendering. |
| `SqlGenerationProperties.OrRendersAsAnd` | Moth.Database.MsSql/MsSqlDatabase.cs:274-275 | Or renders exactly as And, for all operands. |
| `SqlGenerationProperties.RenderingFaults` | Moth.Database.MsSql/MsSqlDatabase.cs:214-249 | Rendering fails exactly when some node, visited left to right, is unsupported. The error is the first such node's. Unsupported nodes are a method expression, an unknown node kind, and a numeric constant holding null. |
| `SqlGenerationProperties.NormalizedNameShape` | Moth.Database.MsSql/MsSqlDatabase.cs:229 | The parameter marker is one `@` followed by the name with all its leading `@` removed. |
| `SqlGenerationProperties.NormalizeIdempotent` | Moth.Database.MsSql/MsSqlDatabase.cs:229 | Normalising a name twice is normalising it once. |
| `SqlGenerationProperties.NormalizedExactly` | Moth.Database.MsSql/MsSqlDatabase.cs:229 | A name is left unchanged exactly when it already starts with a single `@`. |
| `SqlGenerationProperties.ParameterMarkerMatchesBinding` | Moth.Database.MsSql/MsSqlDatabase.cs:226-230 | A parameter is written under the name that ReadByExpression binds it to. Renaming the parameter that way does not change the text. |
| `SqlGenerationProperties.ConstantRendering` | Moth.Database.MsSql/MsSqlDatabase.cs:290-293 | A numeric constant is written as its bare value, and a numeric null throws NullReference. Any other constant is `'` + its text + `'`, with embedded quotes not escaped. |
| `SqlGenerationProperties.IntegerQuotedIffNotNumber` | Moth.Database.MsSql/MsSqlDatabase.cs:290-314 | An integer constant is quoted exactly when its type code is not one of the eleven numeric codes. |
| `SqlGenerationProperties.ConstantExamples` | Moth.Database.MsSql/MsSqlDatabase.cs:290-293 | `42` of type Int32 renders `42`, `"x"` renders `'x'`, and `"O'Brien"` renders `'O'Brien'`. |
| `SqlGenerationProperties.OrderExtendsMember` | Moth.Database.MsSql/MsSqlDatabase.cs:234-239 | An order expression renders as its member followed by ` ASC` or ` DESC`. |
| `SqlGenerationProperties.MemberColumnOfTable` | Moth.Database.MsSql/MsSqlDatabase.cs:239 | A member whose namespace parts join to a type's namespace, on that type's name, renders as the type's table name + `.[member]`. |
| `SqlGenerationProperties.TableNameInjective` | Moth.Database.MsSql/MsSqlDatabase.cs:259-262 | For type names without a dot, equal table names mean equal namespace and name. |
| `SqlGenerationProperties.WhereClauseFails` | Moth.Database.MsSql/MsSqlDatabase.cs:159-162 | No filters give the empty clause. The clause fails exactly when some filter fails. |
| `SqlGenerationProperties.WhereSingle` | Moth.Database.MsSql/MsSqlDatabase.cs:159-161 | One filter gives `WHERE (f)`. |
| `SqlGenerationProperties.WhereAppend` | Moth.Database.MsSql/MsSqlDatabase.cs:159-161 | Appending a filter appends ` AND (f)`, in list order. |
| `SqlGenerationProperties.WhereTwoFilters` | Moth.Database.MsSql/MsSqlDatabase.cs:159-161 | Two filters give `WHERE (f) AND (g)`. |
| `SqlGenerationProperties.TypesFromShape` | Moth.Database.MsSql/MsSqlDatabase.cs:158 | The FROM clause is `FROM ` followed by the table names joined with `, `. |
| `SqlGenerationProperties.SubQueryReplacesTypes` | Moth.Database.MsSql/MsSqlDatabase.cs:155-157 | With a sub-query the types are ignored and FROM is `FROM (inner) AS F{q}`. A failing sub-query is the query's failure. |
| `SqlGenerationProperties.WhereEndsSolid` | Moth.Database.MsSql/MsSqlDatabase.cs:159-161 | A non-empty WHERE clause ends in `)`, which `Trim` cannot remove. |
| `SqlGenerationProperties.FromEndsSolid` | Moth.Database.MsSql/MsSqlDatabase.cs:155-158 | The FROM clause ends in a non-white-space character unless it names no source. |
| `SqlGenerationProperties.AssemblyShape` | Moth.Database.MsSql/MsSqlDatabase.cs:171 | It covers `"{0} {1} {2} {3}"` trimmed, over the clause texts alone. The SELECT clause stays a prefix. A solid ORDER BY keeps everything. Without ORDER BY, a non-empty WHERE keeps everything up to it. Without either, only the FROM clause's end is trimmed. |
| `SqlGenerationProperties.CoreQueryShape` | Moth.Database.MsSql/MsSqlDatabase.cs:163-171 | The same four shapes for a compiled query. |
| `SqlGenerationProperties.RowNumberWindow` | Moth.Database.MsSql/MsSqlDatabase.cs:169 | Without projections, the assembled query (before partitions) starts `SELECT ROW_NUMBER() OVER (w) AS RowId{q}, *`. Here w is the sorts' `ORDER BY`, or `ORDER BY Id` without sorts. |
| `SqlGenerationProperties.RowNumberWindowProjected` | Moth.Database.MsSql/MsSqlDatabase.cs:168 | With projections, the assembled query (before partitions) starts `SELECT ROW_NUMBER() OVER(w) AS RowId{q}, ` followed by the projections joined with `,`. |
| `SqlGenerationProperties.WindowOfSorts` | Moth.Database.MsSql/MsSqlDatabase.cs:163-169 | The row-number window is the sorts' ORDER BY, or `ORDER BY Id` when there are none. |
| `SqlGenerationProperties.OrderEndsSolid` | Moth.Database.MsSql/MsSqlDatabase.cs:237 | An order expression ends in `ASC` or `DESC`. |
| `SqlGenerationProperties.TrailingOrderBy` | Moth.Database.MsSql/MsSqlDatabase.cs:163-171 | When the sorts are order expressions and there are no partitions, the query is select, from, where and ORDER BY, separated by single spaces, and ends in the ORDER BY even when WHERE is empty. |
| `SqlGenerationProperties.OneTypeOneSort` | Moth.Database.MsSql/MsSqlDatabase.cs:153-171 | One type with one sort gives exactly `SELECT ROW_NUMBER() OVER (ORDER BY s) AS RowId{q}, * FROM [T]  ORDER BY s`. |
| `SqlGenerationProperties.FooBarExample` | Moth.Database.MsSql/MsSqlDatabase.cs:237 | `Foo.Bar` by `Bar` ascending renders `[Foo.Bar].[Bar] ASC`. Its table is `[Foo.Bar]`. |
| `SqlGenerationProperties.PartitionStepAffix` | Moth.Database.MsSql/MsSqlDatabase.cs:177-207 | Each partition entry only puts text before and after the query, or throws. |
| `SqlGenerationProperties.PartitionsOnlyAffix` | Moth.Database.MsSql/MsSqlDatabase.cs:175-208 | The whole loop is all prefixes (later ones outside), then the query, then all suffixes (later ones last). The loop never re-wraps. |
| `SqlGenerationProperties.PartitionedQueryShape` | Moth.Database.MsSql/MsSqlDatabase.cs:172-209 | With partitions, the query is wrapped exactly once as `* FROM (core) AS P{q}` and then only prefixed and suffixed. |
| `SqlGenerationProperties.NoPartitionsUnchanged` | Moth.Database.MsSql/MsSqlDatabase.cs:171-172 | Without partitions the result is the assembled query. |
| `SqlGenerationProperties.NonMethodEntriesIgnored` | Moth.Database.MsSql/MsSqlDatabase.cs:177-178 | Entries that are not method expressions leave the text unchanged. |
| `SqlGenerationProperties.TakeShape` | Moth.Database.MsSql/MsSqlDatabase.cs:198-202 | `Take(n)` gives `SELECT TOP n * FROM (core) AS P{q}`. Without an argument it throws NullReference. |
| `SqlGenerationProperties.LastShape` | Moth.Database.MsSql/MsSqlDatabase.cs:185-190 | `Last` gives `SELECT TOP 1 * FROM (core) AS P{q} ORDER BY RowId{q} DESC`. |
| `SqlGenerationProperties.SkipShape` | Moth.Database.MsSql/MsSqlDatabase.cs:203-206 | `Skip(a)` alone gives `* FROM (core) AS P{q} WHERE RowId{q} > a`. |
| `SqlGenerationProperties.SkipThenTakeShape` | Moth.Database.MsSql/MsSqlDatabase.cs:172-209 | `Skip(a)` then `Take(b)` gives `SELECT TOP b * FROM (core) AS P{q} WHERE RowId{q} > a`. |
| `MsSqlDatabase.Keep` | Moth.Database.MsSql/MsSqlDatabase.cs:31 | The kept names are exactly the names not excluded, and there are no more of them than names. |
| `MsSqlDatabase.KeepAppend` | Moth.Database.MsSql/MsSqlDatabase.cs:31 | Filtering distributes over concatenation, so the kept names stay in property order. |
| `MsSqlDatabase.KeepTwice` | Moth.Database.MsSql/MsSqlDatabase.cs:44 | Filtering by one set and then another is filtering by their union. |
| `MsSqlDatabase.KeepCountOne` | Moth.Database.MsSql/MsSqlDatabase.cs:31 | Excluding one name drops exactly its occurrences. |
| `MsSqlDatabase.KeepCountTwo` | Moth.Database.MsSql/MsSqlDatabase.cs:44 | Excluding two different names drops exactly their occurrences. |
| `MsSqlDatabase.CreateStatement` | Moth.Database.MsSql/MsSqlDatabase.cs:29-34 | Defines the INSERT text and parameters. `CreateBindsEveryProperty` states its properties. |
| `MsSqlDatabase.UpdateStatement` | Moth.Database.MsSql/MsSqlDatabase.cs:41-48 | Defines the UPDATE text and parameters, failing without UId. `UpdateBindsEveryProperty` states its properties. |
| `MsSqlDatabase.DeleteStatement` | Moth.Database.MsSql/MsSqlDatabase.cs:55-59 | Defines the DELETE text and parameter, failing without UId. `DeleteBindsUId` states its properties. |
| `MsSqlDatabase.MarkersDistinct` | Moth.Database.MsSql/MsSqlDatabase.cs:33 | `@i` and `@j` are equal exactly when `i == j`, and no `@i` is `@UId`. |
| `MsSqlDatabase.CreateBindsEveryProperty` | Moth.Database.MsSql/MsSqlDatabase.cs:29-34 | Create binds one parameter per property other than Id, in order. Parameter i is named `@i` and holds that property's value. The names are distinct. The text is `INSERT INTO {table} (c_0,…) OUTPUT INSERTED.* VALUES(@0,…)`, where column i is `{table}.[name_i]`, so column i and marker i name the same property. |
| `MsSqlDatabase.CreateParameterCount` | Moth.Database.MsSql/MsSqlDatabase.cs:31-33 | With Id present once, Create binds one parameter fewer than the entity has properties. |
| `MsSqlDatabase.CreateExample` | Moth.Database.MsSql/MsSqlDatabase.cs:29-34 | `{Id, Name="A"}` binds exactly `@0 = "A"`. |
| `MsSqlDatabase.UpdateBindsEveryProperty` | Moth.Database.MsSql/MsSqlDatabase.cs:41-48 | Update fails with `KeyNotFound("UId")` exactly when UId is missing. Otherwise it binds ordinals for the properties other than Id and UId, then `@UId` with the entity's UId. All names are distinct. SET item i assigns column i from `@i`. |
| `MsSqlDatabase.UpdateNamesExcludeKeys` | Moth.Database.MsSql/MsSqlDatabase.cs:44-45 | Update's ordinal parameters are for exactly the property names other than Id and UId. |
| `MsSqlDatabase.OrdinalsThenUId` | Moth.Database.MsSql/MsSqlDatabase.cs:45-46 | Ordinal parameters followed by `@UId` are one longer than the names. Parameter i is `@i` with the value of name i. All names are distinct. |
| `MsSqlDatabase.UpdateParameters` | Moth.Database.MsSql/MsSqlDatabase.cs:44-46 | Update fails with `KeyNotFound("UId")` exactly when UId is missing. Otherwise its parameters are the ordinals of the non-key properties, then `@UId`. |
| `MsSqlDatabase.AssignmentsUseMarkers` | Moth.Database.MsSql/MsSqlDatabase.cs:47-48 | SET item i is `column_i=` followed by parameter name `@i`. |
| `MsSqlDatabase.UpdateParameterCount` | Moth.Database.MsSql/MsSqlDatabase.cs:44-46 | With Id and UId present once each, Update binds (property count - 2) + 1 parameters. |
| `MsSqlDatabase.UpdateEmptySetExample` | Moth.Database.MsSql/MsSqlDatabase.cs:44-48 | `{Id, UId}` gives exactly `UPDATE {table} SET  OUTPUT INSERTED.* WHERE {table}.[UId]=@UId`, two spaces around the empty SET list, and binds only `@UId`. |
| `MsSqlDatabase.UpdateExample` | Moth.Database.MsSql/MsSqlDatabase.cs:41-48 | `{Id, UId=7, Name="B"}` binds exactly `@0 = "B"`, then `@UId = 7`. |
| `MsSqlDatabase.DeleteBindsUId` | Moth.Database.MsSql/MsSqlDatabase.cs:55-59 | Delete fails exactly when UId is missing. Otherwise it binds exactly one parameter, `@UId`, holding it. |
| `MsSqlDatabase.UpdateNamesAreCreateNamesWithoutUId` | Moth.Database.MsSql/MsSqlDatabase.cs:31-44 | Update's names are Create's names with UId removed as well. |
| `MsSqlDatabase.ColumnIsMemberText` | Moth.Database.MsSql/MsSqlDatabase.cs:32 | The CRUD column `{table}.[p]` is the text the compiler gives the member `p` of the entity's type. |
| `MsSqlDatabase.Bindings` | Moth.Database.MsSql/MsSqlDatabase.cs:112-115 | Defines the parameters a command holds after binding. `BindingsKeepOrder` states its properties. |
| `MsSqlDatabase.BindingsKeepOrder` | Moth.Database.MsSql/MsSqlDatabase.cs:112-115 | Binding keeps names and order. No bound value is null. A bound value is DBNull exactly when the parameter's value was null or DBNull; any other value is sent unchanged. |
| `MsSqlDatabase.SqlCommand.constructor` | Moth.Database.MsSql/MsSqlDatabase.cs:107-109 | A new command has the query's text and no parameters. |
| `MsSqlDatabase.SqlCommand.AddWithValue` | Moth.Database.MsSql/MsSqlDatabase.cs:114 | Appends one parameter and changes nothing else. |
| `MsSqlDatabase.CreateCommand` | Moth.Database.MsSql/MsSqlDatabase.cs:105-119 | A fresh command with the query as its text. Its parameters are the binding of the given array in order; a null array adds none. |
| `MsSqlDatabase.CreateQueryCommand` | Moth.Database.MsSql/MsSqlDatabase.cs:121-124 | The command of a text query binds that query's parameters. |
| `MsSqlDatabase.RowEntity` | Moth.Database.MsSql/MsSqlDatabase.cs:131-140 | Defines the entity one row becomes. `ReadMapsFields` states its properties. |
| `MsSqlDatabase.ReadRows` | Moth.Database.MsSql/MsSqlDatabase.cs:126-142 | Defines the entities the rows become. `Read` is proved equal to it and `ReadMapsFields` states its properties. |
| `MsSqlDatabase.ReadMapsFields` | Moth.Database.MsSql/MsSqlDatabase.cs:126-142 | One entity per row and one property per field, in order, with the field's name and type. A NULL field becomes null, any other value is kept, and no DBNull is ever returned. |
| `MsSqlDatabase.NullMarkersRoundTrip` | Moth.Database.MsSql/MsSqlDatabase.cs:114 | Binding and reading undo each other's null markers: a value other than DBNull comes back as itself. |
| `MsSqlDatabase.Read` | Moth.Database.MsSql/MsSqlDatabase.cs:126-142 | The nested while and for loops return `ReadRows(rows)`. |
| `MsSqlDatabase.FirstOrDefault` | Moth.Database.MsSql/MsSqlDatabase.cs:37 | No entities give none. Otherwise the result is the first entity. |
| `MsSqlDatabase.Create` | Moth.Database.MsSql/MsSqlDatabase.cs:29-39 | The INSERT command carries Create's text and bindings. The result is the first returned row's entity, or none. |
| `MsSqlDatabase.Update` | Moth.Database.MsSql/MsSqlDatabase.cs:41-53 | Without UId it throws before any command exists. Otherwise the UPDATE command carries Update's text and bindings, and the result is the first returned row's entity, or none. |
| `MsSqlDatabase.Delete` | Moth.Database.MsSql/MsSqlDatabase.cs:55-64 | The same, for DELETE. |
| `MsSqlDatabase.RetrieveByText` | Moth.Database.MsSql/MsSqlDatabase.cs:79-85 | A text query is sent as it is, with its parameters bound, and every returned row is mapped. RetrieveByText at lines 66-69 is this list. |
| `MsSqlDatabase.NonQueryByText` | Moth.Database.MsSql/MsSqlDatabase.cs:71-77 | The command has the query's text and bound parameters. |
| `MsSqlDatabase.NormalizedParametersIdempotent` | Moth.Database.MsSql/MsSqlDatabase.cs:95-99 | Renaming twice is renaming once. Every name then starts with exactly one `@`, and no value changes. |
| `MsSqlDatabase.NormalizeParameters` | Moth.Database.MsSql/MsSqlDatabase.cs:95-99 | The parameter array is renamed in place, element by element. |
| `MsSqlDatabase.ReadByExpression` | Moth.Database.MsSql/MsSqlDatabase.cs:92-103 | If compiling fails, the exception is raised before any parameter is renamed. If it succeeds, the query's parameters are renamed in place and the command carries the compiled text and the renamed bindings. Every returned row is mapped. |
| `DataRowExtension.RowEntity` | Moth.Database.MsSql/DataRowExtension.cs:9-20 | Defines the entity a data row becomes. `ToEntity` is proved equal to it and `ToEntityKeepsValues` states its properties. |
| `DataRowExtension.ToEntity` | Moth.Database.MsSql/DataRowExtension.cs:9-20 | The foreach over the columns returns `RowEntity(row, columns)`. |
| `DataRowExtension.ToEntityKeepsValues` | Moth.Database.MsSql/DataRowExtension.cs:12-19 | One property per column, in column order, with the column's name and type. Each holds the row's value unchanged, DBNull included. No columns give no properties. |
| `DataRowExtension.ToEntityAgreesWithReader` | Moth.Database.MsSql/DataRowExtension.cs:12-16 | ToEntity and the reader's row mapping agree on a row exactly when none of its cells is DBNull. |

## Left out

- The connection: the two constructors, `connection.Open()`, and `Dispose` with its finalizer. These are resource handling with no logic to model.
- Executing a command: `ExecuteReader`, `ExecuteNonQuery` and the server. The rows a read returns are an input to `Create`, `Update`, `Delete`, `RetrieveByText` and `ReadByExpression`.
- Lazy iteration. `Read` is an iterator, and the `using` blocks dispose the command before a caller drains it. The model reads all rows eagerly. `FirstOrDefault` over all rows equals reading only the first, so the results agree. `RetrieveByExpression` and `ReadByText` add nothing beyond `ToList`, so `ReadByExpression` and `RetrieveByText` stand for them.
- `MsSqlDatabase.NonQueryByText`: does not return the affected-row count, because the count comes from the server.
- `command.CommandType = CommandType.Text`: the command type is constant, so it is not a field of `SqlCommand`.
- `VisibleFieldCount`: a row is given as its visible fields only.
- Reflection: a `Type` is its namespace, its name and its `TypeCode`. `TypeExpression` is reduced to the type it names.
- Culture-dependent `ToString()`: values other than integers and strings carry their display text (`Opaque`). Negative integers use the invariant minus sign.
- `Strings.Format` models only the two-hole operator templates. Brace escapes (`{{`, `}}`) and placeholders beyond `{1}` are not modelled. The other `String.Format` calls (MsSqlDatabase.cs:34, 47-48, 168-171, 205) are written as the concatenation of their arguments. This is exact because `String.Format` does not re-read the text it inserts.
- `Entity`'s indexer and `PropertyNames` belong to Moth.Data, which is not part of this model. The indexer is modelled as the first property of that name, and `KeyNotFound` for a missing name.
- `ExpressionQuery.Parameters` being null, and a null array passed to `CreateCommand(Query)`: only the `params` array of `CreateCommand` is modelled as optional.
- `ReadByExpression` renames the `Parameter` objects themselves. The model renames the query's parameter list, given as an array. Any other reference to those objects is not modelled.
- `DataRowExtension.ToEntity`: requires the row to hold one item per column; `row[column]` for a column of another table (an `ArgumentException`) is not modelled.
