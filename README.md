# querybuilder in Dafny

A model of the two SQL statement builders of `querybuilder`, with proofs
about them.

The second-generation builder, `v2/querybuilder.go`, works like this:
- The caller registers columns and values, filters, ORDER BY and GROUP BY
  items.
- `Build` writes a SELECT, INSERT, UPDATE or DELETE statement. Values that
  are SQL strings become placeholders (`?`, or `@p1`, `@p2`, … when
  parameters are numbered). The statement comes back with the list of
  arguments that fill those placeholders.
- Before `Build` writes anything, it normalises every value (`realValue`)
  and resolves nil values, defaults and match-to-null values.
- A caller-supplied filter callback may add condition fragments and
  arguments.
- When the build asks for it, `{table}` tokens are qualified by the schema
  (`InterpolateTable`).

The first-generation builder, `querybuilder.go`, has two outputs:
- `BuildString` writes every value into the statement text.
- `BuildDataHelper` writes a prepared statement and its argument list.

How the model represents this:
- **Values.** Go's `any` becomes the closed datatype `Values.Input`: nil, a
  scalar, a pointer, a `*any`, a nil reference, or a value of another kind.
- **Pieces.** A statement is modelled as a sequence of pieces: literal text,
  or a placeholder that carries the value the code had in hand when it
  wrote it. `Emission.Render` gives the text, and `Emission.ParamValues`
  gives the values behind the placeholders.
- **Alignment.** The central property is that the argument list a build
  returns equals `ParamValues` of its pieces. This says every placeholder
  receives the argument written for it.

Modules, in dependency order:

| module | file | what it holds |
|---|---|---|
| `Values` | values.dfy | the input datatype and Go's `==` on it |
| `Text` | text.dfy | `strings.Join`, `ToLower`/`EqualFold`, `ReplaceAll` with one-character strings, decimal formatting and parsing |
| `Normalize` | normalize.dfy | `isNil`, `getv`, `realValue` |
| `Dialect` | dialect.dfy | command kinds, engine constants, `InitConstants`, `ParseReserveWordsChars`, escaping, placeholders, the statement trailer |
| `Interpolation` | interpolation.dfy | `InterpolateTable` and the choice of schema in `Build` |
| `Emission` | emission.dfy | pieces, rendering, placeholder numbering |
| `V2State` | v2_state.dfy | the v2 column/value registry as functions |
| `V2Build` | v2_build.dfy | the v2 `Build` as a function of the builder's state (`BuildWith`) |
| `V2Properties` | v2_properties.dfy | what v2 `Build` guarantees, and where it does not |
| `V2QueryBuilder` | v2_querybuilder.dfy | the v2 `QueryBuilder` as a class; its methods and `Build`'s loops are proved against `V2State` and `V2Build` |
| `V1Spec` | v1_spec.dfy | the v1 registry, `evaluateValue`, `basicValidation`, `BuildString` and `BuildDataHelper` as functions |
| `V1Properties` | v1_properties.dfy | what the v1 builders guarantee, and where they do not |
| `V1QueryBuilder` | v1_querybuilder.dfy | the v1 `QueryBuilder` as a class; its methods and loops are proved against `V1Spec` |

The spec functions that have a defect take a `fixed: bool` parameter:
- `false` is the code as written;
- `true` is the evidently intended code.

The class methods build what the code as written builds, within the limits listed
under "Left out" (ASCII text in place of UTF-8 bytes, two-valued sort and limit
settings, opaque formatting of floats, decimals and timestamps).

Where the written description of the library and the code differ, the model
follows the code:
- The v2 `SetColumnValue` updates the first entry whose name does NOT match
  (see Findings).
- v1 compares names with `strings.ToLower` equality, not `EqualFold`. Both
  are modelled as ASCII case folding, so they coincide here.
- v1 `SetColumnValue` takes an `IsSQLFunction` argument and never reads it.

## Model

| member | source | states |
|---|---|---|
| Values.GoEqual | querybuilder.go:551-555 | Go's `==` on interface values: equal dynamic type and value, for comparable kinds only |
| Text.IndexOfName | v2/querybuilder.go:758-767 | the first position whose name equals the given one up to case, or -1 when there is none |
| Text.ToLower | querybuilder.go:193-196 | lower-casing keeps the length, turns each capital letter into its small letter, keeps every other character, and leaves no capital letter |
| Text.ToLowerIdempotent | querybuilder.go:193-196 | lower-casing a lower-cased name changes nothing |
| Text.EqualFoldEquivalence | v2/querybuilder.go:758-767 | equality of names up to case is reflexive, symmetric and transitive |
| Text.JoinBySeparators | v2/querybuilder.go:547-620 | writing items with a running separator (empty first, then `, `) gives `strings.Join` of the items |
| Text.IntToStringRoundTrip | querybuilder.go:559-578 | the decimal text of an integer reads back as that integer |
| Text.IntToStringInjective | v2/querybuilder.go:591-594 | different numbers give different decimal texts |
| Normalize.GetV | v2/querybuilder.go:898-959 | the result is a recognised scalar, taken either as it is or from behind a non-nil pointer (data-helper string wrappers only by value) |
| Normalize.RealValue | v2/querybuilder.go:869-883 | the result is normalised, and a nil input gives nil |
| Normalize.RealValueIsScalar | v2/querybuilder.go:869-959 | `realValue` yields scalar `s` exactly when the input is `s`, or a pointer to `s`, or either of those behind one `*any`, and `s` is of an accepted kind |
| Normalize.DoubleWrapIsNil | v2/querybuilder.go:874-880 | only one `*any` level is unwrapped |
| Normalize.RealValueIdempotent | v2/querybuilder.go:869-883 | normalising twice gives the same as once |
| Normalize.NormalizedNil | v2/querybuilder.go:885-896 | a normalised value is nil for `isNil` exactly when it is the nil value |
| Dialect.InitConstants | v2/querybuilder.go:179-207 | the defaults without database info; a configured, non-empty setting overrides each of the four character defaults, and an unset numbering is off; the limit position is always taken from the configuration; no setting ends up empty |
| Dialect.ParseReserveWordsChars | v2/querybuilder.go:962-970 | two one-character strings: `"` twice when unset, the one character twice, or the first and second characters of a setting of two or more characters |
| Dialect.EscapeRoundTrip | v2/querybuilder.go:463-471 | with one-character settings, escaping adds one escape per enclosing character and can be undone |
| Dialect.PlaceholdersDistinct | v2/querybuilder.go:589-594 | numbered placeholders for different numbers differ |
| Dialect.Trailer | v2/querybuilder.go:691-711 | every statement ends in `;` |
| Interpolation.NameRun | v2/querybuilder.go:973-979 | the longest run of name characters at the start of the text |
| Interpolation.TableQualifier | v2/querybuilder.go:739-750 | a non-empty schema wins; otherwise reference mode gives its prefix, with `_` appended exactly when it does not already end in one, and without reference mode there is no qualifier |
| Interpolation.Expand | v2/querybuilder.go:973-979 | the replacement template expanded for one match (`$$`, `$ref`, `${ref}`, a stray `$` kept); a template without `$` is copied unchanged |
| Interpolation.ExpandQualifier | v2/querybuilder.go:973-978 | a qualifier without `$` followed by `$1` expands to the qualifier and the matched name |
| Interpolation.DollarInSchema | v2/querybuilder.go:973-979 | a `$` in the schema is expanded: schema `a$b` turns `{t}` into `a.t`, and `a$$b` into `a$b.t` |
| Interpolation.NoTokensUnchanged | v2/querybuilder.go:973-979 | text without `{name}` tokens is left unchanged |
| Interpolation.SubstitutePlain | v2/querybuilder.go:973-979 | text holding no `{` passes through unchanged |
| Interpolation.SubstituteToken | v2/querybuilder.go:973-979 | a `{name}` token becomes the template expanded for that match |
| Interpolation.InterpolateParts | v2/querybuilder.go:973-979 | for a schema without `$`, each `{name}` becomes `schema.name` (or `name` for an empty schema) and all other text is unchanged |
| Emission.RenderAppend | v2/querybuilder.go:507-711 | the text of two parts written one after the other is the concatenation of their texts |
| Emission.ParamsAppend | v2/querybuilder.go:714-736 | the placeholders of two parts are those of the first, then those of the second |
| Emission.NumberedAppend | v2/querybuilder.go:549-666 | two consecutively numbered runs make one consecutively numbered run |
| V2State.IndexOfOtherName | v2/querybuilder.go:453-458 | the first entry whose name does NOT equal the given one up to case, or -1 when every name matches |
| V2State.AddColumn | v2/querybuilder.go:758-767 | the index of the column with this name up to case; a column is appended exactly when no column matches, and only then does the list change |
| V2State.FirstMatchIsOwn | v2/querybuilder.go:769-788 | in a registry in lockstep, the entry found for column `index` is the one at `index` |
| V2State.Register | v2/querybuilder.go:417-446 | registering a column and setting its value keeps the registry in lockstep; a new name adds one column and one entry, and a known name updates its entry in place |
| V2State.SetColumnValueInPlace | v2/querybuilder.go:769-788 | `setColumnValue` overwrites the entry at the column's position and changes nothing else |
| V2State.SetColumnValueHitsOtherEntry | v2/querybuilder.go:449-460 | as written, setting `a` overwrites `b` and leaves `a` alone |
| V2State.SetColumnValueFixedUpdatesNamed | v2/querybuilder.go:449-460 | corrected: exactly the entry with the name is updated, and the registry stays in lockstep |
| V2State.SetColumnValueAsWrittenKeepsLockstep | v2/querybuilder.go:449-460 | the code as written still keeps the registry in lockstep and adds no entry |
| V2Build.Resolve | v2/querybuilder.go:553-567 | a nil value falls back to a non-nil default; a non-nil value equal to the match-to-null value is forced to null; the entry counts as null when nil or forced |
| V2Build.BuildWith | v2/querybuilder.go:507-756 | a missing table and a missing column list (except for DELETE) are the two errors, and an error leaves the builder unchanged; a successful build changes only the values, the filters and the parameter offset, and keeps how many of each there are |
| V2Properties.BuildNumbersPlaceholders | v2/querybuilder.go:549-754 | numbered placeholders run consecutively from `ParameterOffset + 1`; the new offset counts the placeholders written |
| V2Properties.BuildArgsMatchPlaceholders | v2/querybuilder.go:714-736 | as written, when no UPDATE entry relies on its default, the column and filter arguments are exactly the placeholders' values, in order, and the callback's arguments follow whenever it returned fragments |
| V2Properties.FixedBuildArgsMatchPlaceholders | v2/querybuilder.go:714-736 | corrected, for every builder: the arguments are the placeholders' values, plus the callback's arguments exactly when its fragments went into a WHERE clause; the WHERE text is the filters followed by the fragments |
| V2Properties.ArgsFollowPieces | v2/querybuilder.go:714-736 | the argument list is the placeholders' values followed by the callback's arguments |
| V2Properties.DefaultedUpdateLosesArgument | v2/querybuilder.go:556-559 | as written, an UPDATE of a nil value with default 7 writes a placeholder for 7 but collects no argument; storing the default restores it |
| V2Properties.InsertCallbackArgumentUnmatched | v2/querybuilder.go:731-736 | as written, an INSERT with a filter callback has no placeholder yet passes the callback's argument; corrected, it passes none |
| V2Properties.InsertPieceValues | v2/querybuilder.go:628-654 | the placeholders of an INSERT carry exactly its column arguments |
| V2Properties.SelectListsEveryEntry | v2/querybuilder.go:568-572 | SELECT lists every entry's name, skipped or not, comma-separated, with no placeholder |
| V2Properties.DeleteWritesNoColumns | v2/querybuilder.go:568-619 | DELETE writes no column text |
| V2Properties.InsertListsKeptEntries | v2/querybuilder.go:573-579 | INSERT lists exactly the names of the entries not left out, in order, comma-separated |
| V2Properties.UpdateWritesKeptEntries | v2/querybuilder.go:580-618 | UPDATE writes one assignment per entry not left out |
| V2Properties.UpdateColumnText | v2/querybuilder.go:580-618 | one UPDATE step adds nothing for an entry left out, otherwise `, ` (after the first) and its item; the counter moves only for a placeholder |
| V2Properties.UpdateCountsKept | v2/querybuilder.go:580-618 | after the UPDATE column list the counter has advanced once per placeholder, and the item count is the number of items |
| V2Properties.UpdateListsKeptItems | v2/querybuilder.go:580-618 | the UPDATE column text is the items of the entries not left out, in order, joined with `, `: `c = NULL` for a nil or forced value, `c = <placeholder>` for an SQL string, numbered on from the start, and `c = <literal>` otherwise |
| V2Properties.InsertValuesMatchColumns | v2/querybuilder.go:628-654 | the VALUES list has exactly as many items as the INSERT column list, which is the size of the item array |
| V2Properties.ForcedNullWrittenAsNull | v2/querybuilder.go:560-652 | a value matching its match-to-null value is never left out, is written as `NULL` by INSERT and UPDATE, and is never an argument |
| V2Properties.NilWithoutDefaultLeftOut | v2/querybuilder.go:566-636 | with skip-nil, an entry with no value and no default is left out of INSERT and UPDATE and passes no argument |
| V2Properties.DefaultTakesOver | v2/querybuilder.go:553-567 | in the column loop, a nil value's default drives the match-to-null test and the UPDATE placeholder |
| V2Properties.DefaultedInsertWritesNull | v2/querybuilder.go:633-648 | as written, an INSERT of a nil value with default 7 writes `NULL` in VALUES and passes no argument; storing the default writes `?` and passes 7 |
| V2Properties.WhereOnlyWithConditions | v2/querybuilder.go:657-688 | no WHERE clause without filters or fragments; always a WHERE clause when a filter has a value |
| V2Properties.BodyText | v2/querybuilder.go:623-688 | what follows the column list: `) VALUES (…)` for INSERT; otherwise FROM (SELECT only) and a WHERE clause exactly when the conditions have text |
| V2Properties.PiecesText | v2/querybuilder.go:507-711 | the statement is the header, the columns, the body and the trailer, in order |
| V2Properties.BuildKeepsLockstep | v2/querybuilder.go:515-567 | a build keeps the registry in lockstep and does not touch the columns |
| V2QueryBuilder.QueryBuilder.constructor | v2/querybuilder.go:124-149 | a builder with the given settings and nothing registered |
| V2QueryBuilder.QueryBuilder.addColumn | v2/querybuilder.go:758-767 | the registry state and index given by `V2State.AddColumn` |
| V2QueryBuilder.QueryBuilder.setColumnValue | v2/querybuilder.go:769-788 | the entry list given by `V2State.SetColumnValue`; nothing else changes |
| V2QueryBuilder.QueryBuilder.AddColumn | v2/querybuilder.go:417-422 | for every command but DELETE, a length-255 column with a nil SQL-string value; the registry stays in lockstep |
| V2QueryBuilder.QueryBuilder.AddColumnFixed | v2/querybuilder.go:425-430 | as `AddColumn`, with the given length |
| V2QueryBuilder.QueryBuilder.AddValue | v2/querybuilder.go:433-446 | a length-8000 column with the value and its options; the registry stays in lockstep |
| V2QueryBuilder.QueryBuilder.SetColumnValue | v2/querybuilder.go:449-460 | the entries as the code as written leaves them; the registry stays in lockstep |
| V2QueryBuilder.QueryBuilder.AddFilter | v2/querybuilder.go:474-482 | one more filter, with a value, appended |
| V2QueryBuilder.QueryBuilder.AddFilterExp | v2/querybuilder.go:485-492 | one more filter, a bare expression, appended |
| V2QueryBuilder.QueryBuilder.AddOrder | v2/querybuilder.go:495-498 | one more ORDER BY item appended |
| V2QueryBuilder.QueryBuilder.AddGroup | v2/querybuilder.go:501-504 | one more GROUP BY item appended |
| V2QueryBuilder.QueryBuilder.NormalizeInPlace | v2/querybuilder.go:515-524 | every value, default, match-to-null value and filter value is normalised in place |
| V2QueryBuilder.QueryBuilder.NormalizeValuesInPlace | v2/querybuilder.go:515-520 | the value entries, normalised one by one |
| V2QueryBuilder.QueryBuilder.NormalizeFiltersInPlace | v2/querybuilder.go:521-524 | the filters, normalised one by one |
| V2QueryBuilder.QueryBuilder.ResolveEntry | v2/querybuilder.go:553-567 | the resolution of `V2Build.Resolve`, and the entry with its flags recorded |
| V2QueryBuilder.QueryBuilder.ColumnItem | v2/querybuilder.go:568-619 | the text one entry adds to the column list |
| V2QueryBuilder.QueryBuilder.UpdateItem | v2/querybuilder.go:580-618 | an UPDATE assignment: `= NULL`, a placeholder or the literal text |
| V2QueryBuilder.QueryBuilder.ColumnEntry | v2/querybuilder.go:552-620 | one pass of the column loop: resolve, then write |
| V2QueryBuilder.QueryBuilder.NextPlaceholder | v2/querybuilder.go:589-594 | the next placeholder and counter |
| V2QueryBuilder.QueryBuilder.ColumnPass | v2/querybuilder.go:552-620 | one pass of the column loop, against the column fold |
| V2QueryBuilder.QueryBuilder.WriteColumns | v2/querybuilder.go:547-620 | the column text and counter of the column fold; the entries are left resolved |
| V2QueryBuilder.QueryBuilder.InsertItem | v2/querybuilder.go:634-648 | the item one stored entry adds to the VALUES list |
| V2QueryBuilder.QueryBuilder.WriteInsertValues | v2/querybuilder.go:628-654 | the VALUES text, built in an item array, and its counter |
| V2QueryBuilder.QueryBuilder.InsertLoopPass | v2/querybuilder.go:633-652 | one pass of the VALUES loop; the item count stays within the array |
| V2QueryBuilder.QueryBuilder.InsertPass | v2/querybuilder.go:634-652 | one VALUES step, against the VALUES fold |
| V2QueryBuilder.QueryBuilder.PutItem | v2/querybuilder.go:649-651 | storing an item extends the array's concatenation by it |
| V2QueryBuilder.QueryBuilder.WriteConditions | v2/querybuilder.go:657-688 | the conditions text and counter: filters, then callback fragments |
| V2QueryBuilder.QueryBuilder.FilterLoopPass | v2/querybuilder.go:660-675 | one pass of the filter loop |
| V2QueryBuilder.QueryBuilder.FragmentPass | v2/querybuilder.go:676-684 | one fragment appended after the filters |
| V2QueryBuilder.QueryBuilder.FilterItem | v2/querybuilder.go:661-674 | `expr = placeholder` for a filter with a value; otherwise `expr IS NULL`, or the bare expression added by `AddFilterExp` |
| V2QueryBuilder.QueryBuilder.WriteTrailer | v2/querybuilder.go:691-711 | ORDER BY, GROUP BY, a rear LIMIT and `;` |
| V2QueryBuilder.QueryBuilder.CollectArgs | v2/querybuilder.go:714-736 | the column arguments, then the filter arguments (not for INSERT), then the callback's arguments when it returned fragments |
| V2QueryBuilder.QueryBuilder.WriteHeader | v2/querybuilder.go:529-544 | the statement head for the command |
| V2QueryBuilder.QueryBuilder.WriteBody | v2/querybuilder.go:623-688 | the VALUES list of an INSERT, or FROM and WHERE |
| V2QueryBuilder.QueryBuilder.Qualifier | v2/querybuilder.go:739-750 | the qualifier of `Interpolation.TableQualifier` |
| V2QueryBuilder.QueryBuilder.Prepare | v2/querybuilder.go:515-620 | header and column text; the entries are normalised and resolved, and the filters normalised |
| V2QueryBuilder.QueryBuilder.Assemble | v2/querybuilder.go:515-711 | the rendered pieces of the statement and the final counter |
| V2QueryBuilder.QueryBuilder.Conclude | v2/querybuilder.go:714-754 | the arguments of `V2Build.Args`, and the counter written back |
| V2QueryBuilder.QueryBuilder.Build | v2/querybuilder.go:507-756 | result and new state exactly as `V2Build.BuildWith` (code as written); the registry stays in lockstep |
| V1Spec.AddColumn | querybuilder.go:191-207 | the index of the column with this name up to case; a column is appended exactly when none matches |
| V1Spec.ValuesWithinColumns | querybuilder.go:220-247 | a registered builder never has more value entries than columns |
| V1Spec.EvaluateValue | querybuilder.go:539-603 | `NULL` when the value (or default) equals the null-detection value; the empty text with neither value nor default; otherwise the value's literal |
| V1Spec.BasicValidation | querybuilder.go:605-625 | valid exactly when there is a table and, except for DELETE, columns; the message is empty exactly when valid |
| V1Spec.StringColumnItems | querybuilder.go:308-327 | one column item per value entry, except for DELETE |
| V1Spec.StringValueItems | querybuilder.go:335-343 | one literal per value entry |
| V1Spec.StringConditionItems | querybuilder.go:346-365 | one condition per filter |
| V1Spec.BuildStringOf | querybuilder.go:285-398 | fails exactly when validation fails, with its message; otherwise the text starts with the head and ends with the trailer |
| V1Spec.InsertFailure | querybuilder.go:449-464 | the INSERT VALUES loop panics only with an index out of range or a failed string assertion |
| V1Spec.InsertSlotsExist | querybuilder.go:449-464 | the VALUES loop gets past every slot exactly when every slot has an entry and each entry that is not a database string holds a Go string |
| V1Spec.HelperFromPart | querybuilder.go:444-446 | the FROM part carries no placeholder |
| V1Spec.DataHelperOf | querybuilder.go:401-537 | panics on invalid input exactly when validation fails; a prepared statement ends with the trailer, and an INSERT has an entry for every column |
| V1Properties.AddColumnKeeps | querybuilder.go:191-207 | `addColumn` keeps the registry invariant |
| V1Properties.EntryOfColumn | querybuilder.go:220-247 | an entry named like a column, up to case, carries exactly that column's name |
| V1Properties.SetColumnValueKeeps | querybuilder.go:220-247 | `setColumnValue` keeps the registry; afterwards exactly one entry is named like the column and holds the new settings, and every other entry is unchanged |
| V1Properties.SetColumnValueAppends | querybuilder.go:123-141 | as written, with columns `a`, `b` and an entry only for `b`, setting `b` appends an entry for `a` and `b` keeps its old value |
| V1Properties.SetColumnValueAsWrittenKeeps | querybuilder.go:123-141 | as written, the registry invariant still holds |
| V1Properties.SetColumnValueFixedUpdatesInPlace | querybuilder.go:123-141 | corrected: the named entry is updated in place, nothing is appended, and the registry holds |
| V1Properties.IntegerLiteralRoundTrip | querybuilder.go:559-578 | an integer is written in decimal and reads back as the number |
| V1Properties.StringLiteralRoundTrip | querybuilder.go:590-596 | a database string is quoted with `'`, escaped, and unescapes to the string |
| V1Properties.HelperColumnsParams | querybuilder.go:425-441 | the UPDATE column list holds a placeholder per database string, carrying its value, and other commands hold none |
| V1Properties.HelperSlotsParams | querybuilder.go:449-464 | the VALUES slots hold a placeholder per database string, carrying its value, in entry order |
| V1Properties.HelperConditionsParams | querybuilder.go:467-486 | one placeholder per filter with a value, carrying it, in filter order |
| V1Properties.SilentConditions | querybuilder.go:467-486 | conditions without text come only from filters without values |
| V1Properties.ColumnArgsComplement | querybuilder.go:519-525 | for INSERT and UPDATE, each entry's argument goes to exactly one of the as-written and the corrected argument lists |
| V1Properties.HelperArgsAligned | querybuilder.go:519-534 | corrected: the arguments are exactly the placeholders' values, in order |
| V1Properties.HelperArgsInverted | querybuilder.go:519-525 | as written, `UPDATE t SET c = ?;` comes with no argument, and corrected with the string |
| V1Properties.NoInsertFilterArgs | querybuilder.go:528-534 | INSERT collects no filter argument |
| V1Properties.NoDeleteColumnArgs | querybuilder.go:519-525 | DELETE collects no column argument |
| V1Properties.NoSelectColumnArgs | querybuilder.go:519-525 | SELECT collects no column argument |
| V1Properties.FailsBeforeAll | querybuilder.go:425-441 | the column loop's running failure flag is set exactly when some entry so far fails the string assertion |
| V1Properties.InsertFailureSticks | querybuilder.go:449-464 | once the VALUES loop has panicked, the outcome stays that panic |
| V1Properties.StatementText | querybuilder.go:401-516 | the statement is head, columns, FROM, VALUES, WHERE and trailer, in order |
| V1Properties.WhereText | querybuilder.go:467-486 | ` WHERE ` and the conditions when they have text; nothing for INSERT |
| V1Properties.ValuesPartText | querybuilder.go:449-464 | `) VALUES (` and the slots, then `)` |
| V1QueryBuilder.QueryBuilder.constructor | querybuilder.go:90-102 | an empty builder with the default quoting and a rear limit |
| V1QueryBuilder.QueryBuilder.addColumn | querybuilder.go:191-207 | the columns and index of `V1Spec.AddColumn` |
| V1QueryBuilder.QueryBuilder.setColumnValue | querybuilder.go:220-247 | the entries of `V1Spec.SetColumnValue`; nothing else changes |
| V1QueryBuilder.QueryBuilder.AddColumn | querybuilder.go:105-111 | for every command but DELETE, a length-255 column; the registry holds |
| V1QueryBuilder.QueryBuilder.AddColumnWithLength | querybuilder.go:114-120 | as `AddColumn`, with the given length |
| V1QueryBuilder.QueryBuilder.SetColumnValue | querybuilder.go:123-141 | the entries as the code as written leaves them; the registry holds |
| V1QueryBuilder.QueryBuilder.putColumnValue | querybuilder.go:144-189 | register a length-255 column and set its entry; the registry holds |
| V1QueryBuilder.QueryBuilder.AddColumnValue | querybuilder.go:144-149 | a database-string entry |
| V1QueryBuilder.QueryBuilder.AddColumnNonStringValue | querybuilder.go:152-157 | an entry written as it is |
| V1QueryBuilder.QueryBuilder.AddColumnValueWithDefault | querybuilder.go:160-165 | a database-string entry with a default |
| V1QueryBuilder.QueryBuilder.AddColumnNonStringValueWithDefault | querybuilder.go:168-173 | an entry written as it is, with a default |
| V1QueryBuilder.QueryBuilder.AddColumnValueWithDefaultNull | querybuilder.go:176-181 | a database-string entry with a default and a null-detection value |
| V1QueryBuilder.QueryBuilder.AddColumnNonStringValueDefaultNull | querybuilder.go:184-189 | an entry written as it is, with a default and a null-detection value |
| V1QueryBuilder.QueryBuilder.CleanStringValue | querybuilder.go:210-218 | with one-character settings, the escaped text unescapes to the input; the empty text stays empty |
| V1QueryBuilder.QueryBuilder.AddFilterWithValue | querybuilder.go:250-254 | one more filter with a database-string value |
| V1QueryBuilder.QueryBuilder.AddFilterWithNonStringValue | querybuilder.go:257-261 | one more filter with a value written as it is |
| V1QueryBuilder.QueryBuilder.AddFilter | querybuilder.go:264-268 | one more bare filter expression |
| V1QueryBuilder.QueryBuilder.AddOrder | querybuilder.go:271-275 | one more ORDER BY item |
| V1QueryBuilder.QueryBuilder.AddGroup | querybuilder.go:278-282 | one more GROUP BY item |
| V1QueryBuilder.QueryBuilder.WriteHead | querybuilder.go:293-305 | the head for the command |
| V1QueryBuilder.QueryBuilder.WriteEnd | querybuilder.go:368-395 | ORDER BY, GROUP BY, a rear LIMIT and `;` |
| V1QueryBuilder.QueryBuilder.WriteStringColumns | querybuilder.go:308-327 | the column text of `BuildString` |
| V1QueryBuilder.QueryBuilder.WriteStringColumnItems | querybuilder.go:309-319 | the column items, joined with `, ` |
| V1QueryBuilder.QueryBuilder.JoinPass | querybuilder.go:310-319 | one more item under a running separator |
| V1QueryBuilder.QueryBuilder.WriteColumnNames | querybuilder.go:320-327 | the registered column names, joined with `, ` |
| V1QueryBuilder.QueryBuilder.WriteStringValues | querybuilder.go:335-343 | the INSERT literals, joined with `, ` |
| V1QueryBuilder.QueryBuilder.WriteStringConditions | querybuilder.go:346-365 | the WHERE clause with the values inlined |
| V1QueryBuilder.QueryBuilder.BuildString | querybuilder.go:285-398 | the validation message as the error (with an empty statement), or the statement of `V1Spec.BuildStringOf` |
| V1QueryBuilder.QueryBuilder.WriteHelperColumns | querybuilder.go:425-441 | fails exactly when an UPDATE entry fails the string assertion; otherwise the column text |
| V1QueryBuilder.QueryBuilder.HelperColumnPass | querybuilder.go:425-441 | one column item, or the assertion failure |
| V1QueryBuilder.QueryBuilder.WriteHelperSlots | querybuilder.go:449-464 | the panic of `V1Spec.InsertFailure`, or the slots' text built in an array |
| V1QueryBuilder.QueryBuilder.SlotPass | querybuilder.go:452-462 | one VALUES slot, or the panic it causes |
| V1QueryBuilder.QueryBuilder.WriteHelperConditions | querybuilder.go:467-486 | the WHERE clause with `expr = ?` per filter with a value; nothing for INSERT |
| V1QueryBuilder.QueryBuilder.ConditionPass | querybuilder.go:470-481 | one more condition |
| V1QueryBuilder.QueryBuilder.CollectHelperArgs | querybuilder.go:519-534 | the column arguments as the code collects them, then the filter arguments |
| V1QueryBuilder.QueryBuilder.BuildDataHelper | querybuilder.go:401-537 | exactly `V1Spec.DataHelperOf` as written |

## Left out

- Option closures, `New`/`Spawn` plumbing and the `dbInfo` pointer wiring (v2/querybuilder.go:124-414): the model is built with its settings directly, and `schema`, `referenceMode` and `referenceModePrefix` are plain fields.
- The log warning for a missing database configuration: output has no counterpart in the model.
- Panics on a nil `dbInfo`: the model has no pointer to it.
- `ValueOptions`: a value's options are passed as three arguments to `AddValue`.
- `NewSelect` … `SpawnDelete`: these only combine `New`/`Spawn` with a command.
- Floating-point, decimal and timestamp formatting: these values carry the text the formatting routines would give, as opaque strings.
- Values.GoEqual never reports two pointers equal: Go compares them by address, which the model does not track.
- Values.GoEqual reports two byte slices unequal where Go panics: the panic on comparing uncomparable values is not modelled.
- Text.EqualFold: Unicode case folding is modelled as ASCII case folding. This covers v1 `strings.ToLower` equality and v2 `strings.EqualFold`.
- The v2 filter callback is a pure total function of its three arguments, so its two calls in `Build` give the same result.
- `InterpolateTable`'s regular expression is modelled by a scanner for `{name}` tokens, and its replacement template by `Interpolation.Expand`.
- Interpolation.Expand: group references are read as ASCII letters, digits and `_`; Go also accepts other Unicode letters and digits, which in this expression name no group either way, so only where such a reference ends differs.
- Values.GoEqual: decimals, timestamps and floating-point numbers are compared by their text. Go compares a decimal's big-integer pointer and exponent, a `time.Time`'s wall clock, monotonic reading and location (the RFC 3339 text drops sub-seconds), and floats by IEEE rules (NaN is unequal to itself, `0` equals `-0`); the model can report these wrongly either way.
- Dialect.ParseReserveWordsChars: counts characters where Go's `len` and slicing count UTF-8 bytes; the two agree on ASCII settings, and a multi-byte setting is split into whole characters instead of bytes.
- Dialect.Sort and Dialect.Limit: two values each, whereas Go's are open integer types. An out-of-range sort direction writes ` DESC` in v2 and nothing in v1, and an out-of-range limit position writes the limit neither at the front nor at the rear; the model cannot express either.
- The v1 `IsSQLFunction` argument of `SetColumnValue` is ignored, as in the source.
- The v1 exported fields, which callers may write directly: the model changes them only through the methods. The registry invariant is a precondition of the registry methods.
- The v1 `BuildDataHelper` panics (invalid builder, index out of range, failed string assertion) become a `Panicked` outcome.
- v1 integer formatting: signed and unsigned kinds are both written in decimal by one rule, which agrees with `FormatInt` and `FormatUint` on their values.
- Dialect.Escape is a function. Its round trip (`Dialect.EscapeRoundTrip`) is proved only for one-character enclosing and escape settings.
- V2Properties.BuildArgsMatchPlaceholders requires that no UPDATE entry relies on its default, because as written such an entry breaks the property (see Findings).
- Machine-width integers: counters and lengths are unbounded; the statements in question stay far below Go's `int` range.

## Findings

| source | as written | input that shows it | evidently intended | confidence | as-written member | corrected member |
|---|---|---|---|---|---|---|
| v2/querybuilder.go:556-559 | UPDATE resolves a nil value's default into a local copy and writes a placeholder for it. The argument loop reads the stored entry, which still holds nil, so no argument is collected | UPDATE `t` with a column whose value is nil and whose default is 7, as an SQL string | the default is passed as the placeholder's argument | not executed | V2Properties.DefaultedUpdateLosesArgument | V2Properties.FixedBuildArgsMatchPlaceholders |
| v2/querybuilder.go:731-736 | the filter callback's arguments are appended for every command, but its fragments are written only into a WHERE clause, which INSERT does not have | INSERT with a callback returning fragment `x = ?` and argument 5 | no callback arguments for INSERT | not executed | V2Properties.InsertCallbackArgumentUnmatched | V2Properties.FixedBuildArgsMatchPlaceholders |
| v2/querybuilder.go:453-458 | `SetColumnValue` skips entries whose name matches and overwrites the first one that does not | columns `a`, `b`; `SetColumnValue("a", 1)` | the entry named `a` is updated | not executed | V2State.SetColumnValueHitsOtherEntry | V2State.SetColumnValueFixedUpdatesNamed |
| v2/querybuilder.go:556-559 | INSERT resolves a nil value's default into a local copy only. The VALUES loop (633-648) reads the stored entry, which still holds nil, so it writes `NULL` and the default is lost | INSERT into `t` a column whose value is nil and whose default is 7, as an SQL string | `VALUES (?)` with the argument 7 | not executed | V2Properties.DefaultedInsertWritesNull | V2Properties.FixedBuildArgsMatchPlaceholders |
| querybuilder.go:519-525 | `BuildDataHelper` collects column arguments from the entries that are NOT database strings, which are the ones it wrote inline | UPDATE `t` SET `c` to the database string `x` | arguments from the database strings, which got the placeholders | not executed | V1Properties.HelperArgsInverted | V1Properties.HelperArgsAligned |
| querybuilder.go:126-137 | `SetColumnValue` passes the position of the matching value entry as a column index | columns `a`, `b`; only `b` has an entry; `SetColumnValue("b", …)` | the entry of column `b` is updated | not executed | V1Properties.SetColumnValueAppends | V1Properties.SetColumnValueFixedUpdatesInPlace |
