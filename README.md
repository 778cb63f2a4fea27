# local_assessmentsettings: a verified model of the assessment-settings task

The Moodle plugin `local_assessmentsettings` runs one scheduled task,
`assessmentsettings`. On each run the task connects to an external data
warehouse and reads two tables. The first lists the assessments, keyed by a
link code (`assessment_idcode`). The second lists student extensions. The task
then joins the assessments with the local assignments that carry the same link
code in their course module's `idnumber`. For every such assignment it forces a
fixed set of assignment settings (marking workflow, submit button, submission
statement, notifications and Turnitin). It also aligns the grade item's scale
with the external assessment's mark scheme.

The model follows `classes/task/assessmentsettings.php` part by part.

| file | module | what it models |
|---|---|---|
| `php.dfy` | `Php` | The PHP notions the task relies on: null/string cells, truthiness, interpolation of null, ASCII key lower-casing, and ordered arrays, where assigning to an existing key keeps its position. |
| `escaping.dfy` | `Escaping` | `db_addslashes`, as the chain of `str_replace` calls it is, plus its per-character reading and its inverses. |
| `encoding.dfy` | `Encoding` | `db_encode` / `db_decode` over nested values, `array_change_key_case`, and field access on a fetched row. |
| `query.dfy` | `QueryBuilder` | `db_get_sql` and `db_get_sql_like` as string assembly. |
| `config.dfy` | `ConfigCache` | The settings cache read by `get_config` and written by `set_config`, as pure functions on a map. |
| `index.dfy` | `Index` | The three index loops (`$assign_mdl`, `$assess_ext`, `$student`), as `for` loops proved against one fold. |
| `localstore.dfy` | `LocalStore` | The local tables the task reads and writes through `$DB`, as a class whose methods are `get_field` / `set_field` / `get_record`. |
| `reconcile.dfy` | `Reconcile` | The update loop. `ApplyEntry` is the step-by-step reading, `Expected` the closed form. Also the policy, frame and idempotence lemmas, and the loop itself as methods on `LocalDb`. |
| `external.dfy` | `External` | The external connection (`Execute`, `Close`), `db_init` as a connector that may fail, and the `FetchRow` loop. |
| `task.dfy` | `Task` | The task object: `load_config` / `get_config` / `set_config` on `$this->config`, the query helpers that read it, and `execute`. |

Conventions used throughout:

- **PHP values.**
  - A database scalar is a `Cell` (`Option<string>`).
  - PHP falsiness is kept exactly: null, `""` and `"0"` are false.
  - Flag columns and ids are integers.
  - A scale id of 0 stands for NULL or "no scale". Under PHP's loose comparison, null, false and 0 compare equal, so the test at line 273 treats them alike.
- **Missing rows.** `get_field` on a missing row yields false, modelled as `None`, and `false == 0` holds. `set_field` on a missing row changes nothing.
- **Bare-constant keys.** The index loops write `$am[assessment_idcode]` with bare constants. The model reads them as PHP 7 does: as the string keys of the same name.
- **The Turnitin guard.** The guard at line 248 compares the `name` column, not `value`, with 0. How `"use_turnitin" == 0` comes out depends on the PHP version, so the guard is the parameter `Reconcile.TurnitinGuard`. It is applied to the name read back: `Some("use_turnitin")`, or `None` when no row exists.
- **Character-set conversion.** `core_text::convert` is the uninterpreted parameter `Encoding.Converter`.
- **The success path.** It returns nothing, so `Task.AssessmentSettingsTask.Execute` returns `None` there. Early returns give `Some(0)`, `Some(1)` or `Some(4)`.
- **Quoting modes.** The code takes a *truthy* `dbsybasequoting` to mean backslash escaping and the default to mean doubled apostrophes. The model keeps that.

In several places the code does something other than what its own comments
say, or other than what one would expect of a job that forces settings. The
model follows the code:

- **Second-run writes.** One would expect a second run over unchanged external data to write nothing. The code still writes on that run:
  - line 233 reads `sendlatenotifications == 0` and then writes 0;
  - line 249 rewrites the Turnitin value when the guard of line 248 passes, as it does under PHP 7 for an existing row. Under PHP 8 nothing is written there.

  What holds is *state* idempotence: the second run leaves every table as the first left it (`Reconcile.RunIdempotent`, `Reconcile.UpdateLoopIdempotent`, and the last clause of `Task.AssessmentSettingsTask.Execute`).
- **Late notifications.** The comment at line 232 says `Notify graders - late. OFF.` The guard at line 233 tests for 0 and writes 0, so the step can never change a value (`Reconcile.FlagPolicies`, `Reconcile.RunFrame`). A row with late notifications on keeps them on. It is kept as written.
- **Student notifications.** The comment at line 237 and the message at line 241 say `ON`. The code at lines 239-240 turns `sendstudentnotifications` from 1 to 0, that is, off. The model follows the code.
- **Scale fallback.** The fallback of lines 278-282 runs only when the scale found (none) differs from the grade item's current scale. A grade item that already has no scale is left alone, grade included, even when its grade is not 100.
- **Turnitin test.** The comment at line 247 says `Use_TurnItIn. ON.` One would expect the test to look at the setting's `value`. The code compares the `name` column with 0 instead (see above).
- **Closing the connection.** The connection is closed only on the paths that opened one. The returns with status 0 happen before `db_init`. Status 1 means no connection exists.

## Model

| member | source | states |
|---|---|---|
| Php.Put | classes/task/assessmentsettings.php:158-161 | `$a[$k] = $v` keeps the array valid and stores `v` under `k`. An existing key keeps its position; a new key is appended at the end. |
| Php.PArray.Entries | classes/task/assessmentsettings.php:189 | Defines the order `foreach` visits an array in: one value per key, in key order. This is a definition, not a derived property. |
| Escaping.ReplaceAll | classes/task/assessmentsettings.php:335-338 | `str_replace` of a character that does not occur leaves the text unchanged. |
| Escaping.QuotePasses | classes/task/assessmentsettings.php:336 | Definition of the second `str_replace` of the backslash branch: the apostrophe, the double quote and NUL replaced one after the other. Its properties are in `Escaping.QuotePassesAppend` and `Escaping.SybaseOneChar`. |
| Escaping.AddSlashes | classes/task/assessmentsettings.php:332-341 | Definition of `db_addslashes`. Its properties are in `Escaping.AddSlashesPerChar`, `Escaping.StandardRoundTrip` and `Escaping.SybaseRoundTrip`. |
| Escaping.ReplaceAllAppend | classes/task/assessmentsettings.php:335-338 | A one-character `str_replace` distributes over concatenation. |
| Escaping.QuotePassesAppend | classes/task/assessmentsettings.php:336 | The three quote replacements of the backslash branch distribute over concatenation. |
| Escaping.SybaseOneChar | classes/task/assessmentsettings.php:334-336 | Applied in sequence to one character, the passes turn `\` into `\\`, `'` into `\'`, `"` into `\"` and NUL into `\0`. Every other character is unchanged. |
| Escaping.AddSlashesPerChar | classes/task/assessmentsettings.php:332-341 | In both modes `db_addslashes` escapes each character on its own: the chained passes never rewrite the output of an earlier pass. |
| Escaping.CollapseEscapeEach | classes/task/assessmentsettings.php:337-338 | Collapsing `''` to `'` undoes apostrophe doubling. |
| Escaping.StripEscapeEach | classes/task/assessmentsettings.php:334-336 | Removing the backslash escapes undoes the backslash mode. |
| Escaping.StandardRoundTrip | classes/task/assessmentsettings.php:337-338 | With a falsy quoting flag, every `'` becomes `''` and nothing else changes; collapsing recovers the input. |
| Escaping.SybaseRoundTrip | classes/task/assessmentsettings.php:334-336 | With a truthy quoting flag, the result is the per-character backslash escaping; stripping it recovers the input. |
| Encoding.SameShapeReflexive | classes/task/assessmentsettings.php:345-347 | A value has its own shape (used by the identity case). |
| Encoding.Encode | classes/task/assessmentsettings.php:343-356 | `db_encode` is the identity when the encoding is empty or `utf-8`. Otherwise it keeps every key and the nesting, and converts only the leaves: a leaf becomes `convert(cell, utf-8, dbencoding)`. |
| Encoding.Decode | classes/task/assessmentsettings.php:358-371 | `db_decode`: the same identity case and the same preservation of keys and nesting; a leaf becomes `convert(cell, dbencoding, utf-8)`. |
| Encoding.Keys | classes/task/assessmentsettings.php:111 | The keys of an array, in order. |
| Encoding.Assign | classes/task/assessmentsettings.php:111 | After array assignment the key reads as the value and every other key reads as before. |
| Encoding.AssignKeys | classes/task/assessmentsettings.php:111 | Assignment keeps the order of the keys; a new key is appended at the end. |
| Encoding.ChangeKeyCase | classes/task/assessmentsettings.php:111 | `array_change_key_case(CASE_LOWER)` yields distinct, lower-case keys. |
| Encoding.LowerIdempotent | classes/task/assessmentsettings.php:111 | Lower-casing twice is lower-casing once. |
| Encoding.ChangeKeyCaseLastWins | classes/task/assessmentsettings.php:111 | A lower-cased key holds the value of the last column whose name lower-cases to it. |
| Encoding.ChangeKeyCaseAbsent | classes/task/assessmentsettings.php:111 | A key that no column lower-cases to is absent. |
| Encoding.LookupDecode | classes/task/assessmentsettings.php:363-367 | Decoding an array decodes the value under each key and keeps the key. |
| Encoding.NormalizeField | classes/task/assessmentsettings.php:111-112 | A field of a fetched row, after lower-casing and decoding, is the last matching column's value. It is unchanged in the identity case and converted from the external encoding otherwise. |
| Encoding.NormalizeFieldAbsent | classes/task/assessmentsettings.php:111-112 | A field that no column provides reads as null. |
| Encoding.Field | classes/task/assessmentsettings.php:166-171 | Definition of `$row[name]` on a fetched row, null for an undefined index or a nested value. Its properties are in `Encoding.NormalizeField`, `Encoding.NormalizeFieldAbsent` and `Index.AssessExtLastWins`. |
| Encoding.Normalize | classes/task/assessmentsettings.php:111-112 | Definition of `array_change_key_case` followed by `db_decode` on one fetched row (also at lines 142-143). Its properties are in `Encoding.NormalizeField` and `Encoding.NormalizeFieldAbsent`. |
| QueryBuilder.Literal | classes/task/assessmentsettings.php:378 | Definition: the value escaped, then encoded. Its properties are in `QueryBuilder.TermValueRecovered` and `QueryBuilder.TermValueRecoveredSybase`. |
| QueryBuilder.Join | classes/task/assessmentsettings.php:374 | Definition of `implode`. Its properties are in `QueryBuilder.JoinSplit` and `QueryBuilder.ClausesMeaning`. |
| QueryBuilder.EncodeText | classes/task/assessmentsettings.php:378 | Definition of `db_encode` on a string, read back as the interpolated text. Its properties are in `QueryBuilder.TermValueRecovered` and `QueryBuilder.TermValueRecoveredSybase`. |
| QueryBuilder.Term | classes/task/assessmentsettings.php:380 | Definition of one `key = 'value'` term (`key LIKE '%value%'` at line 400). Its properties are in `QueryBuilder.Terms` and `QueryBuilder.TermValueRecovered`. |
| QueryBuilder.Terms | classes/task/assessmentsettings.php:376-382 | One `key = 'value'` term per condition, in order. Each value is escaped, then encoded. |
| QueryBuilder.SelectClauses | classes/task/assessmentsettings.php:374-385 | Definition of the four clauses computed by the ternaries. Its properties are in `QueryBuilder.ClausesMeaning` and `QueryBuilder.ProjectionFields`. |
| QueryBuilder.Layout | classes/task/assessmentsettings.php:386-389 | Definition of the statement template, line breaks included. It is used by `QueryBuilder.FullScan`. |
| QueryBuilder.GetSql | classes/task/assessmentsettings.php:373-391 | Definition of `db_get_sql`. Its properties are in `QueryBuilder.ClausesMeaning`, `QueryBuilder.ProjectionFields` and `QueryBuilder.FullScan`. |
| QueryBuilder.GetSqlLike | classes/task/assessmentsettings.php:393-411 | Definition of `db_get_sql_like`. Its properties are in `QueryBuilder.ClausesMeaning`, with `like` set. |
| QueryBuilder.ClausesMeaning | classes/task/assessmentsettings.php:373-391 | The projection is `*` for no fields and the fields joined by commas otherwise. `WHERE` appears exactly when there are conditions, with the terms joined by ` AND `. `ORDER BY` appears exactly for a truthy sort, `DISTINCT` exactly when asked for. |
| QueryBuilder.JoinSplit | classes/task/assessmentsettings.php:374 | When no part contains the separator, splitting `implode` at the separator gives back exactly the parts, in order. |
| QueryBuilder.ProjectionFields | classes/task/assessmentsettings.php:374 | When no field name contains a comma, the projection of a statement splits back into its field list. |
| QueryBuilder.TermValueRecovered | classes/task/assessmentsettings.php:378-380 | With the identity encoding and the default quoting, the text between the apostrophes of a term collapses back to the condition's value. |
| QueryBuilder.TermValueRecoveredSybase | classes/task/assessmentsettings.php:378-380 | The same with backslash quoting, by stripping the escapes. |
| QueryBuilder.FullScan | classes/task/assessmentsettings.php:107 | The statement sent for each external table (also at line 138) is `SELECT DISTINCT *` over the table, with no WHERE and no ORDER BY clause. |
| ConfigCache.Lookup | classes/task/assessmentsettings.php:420-423 | Definition of `isset($this->config->$name) ? … : $default`. Its properties are in `ConfigCache.Set`. |
| ConfigCache.Set | classes/task/assessmentsettings.php:434-438 | After setting, the name reads back as the value, or as the caller's default after null. Every other name reads as before; null removes the name. |
| Index.Fold | classes/task/assessmentsettings.php:157-185 | Every index loop yields a valid PHP array. |
| Index.FoldKeys | classes/task/assessmentsettings.php:157-185 | A key is in an index exactly when some kept row has that key. |
| Index.FoldLastWins | classes/task/assessmentsettings.php:157-185 | For a repeated key, the last kept row wins. |
| Index.FoldStoredRow | classes/task/assessmentsettings.php:157-185 | Every stored entry comes from a kept row with that key. |
| Index.FoldSkips | classes/task/assessmentsettings.php:177 | A row that is not kept changes nothing. |
| Index.AssignMdl | classes/task/assessmentsettings.php:156-162 | Definition of `$assign_mdl` as a fold. Its properties are in `Index.AssignMdlKeys`, `Index.AssignMdlLastWins` and `Index.AssignMdlDisjoint`. |
| Index.BuildAssignMdl | classes/task/assessmentsettings.php:156-162 | The `$assign_mdl` loop computes `AssignMdl` of the local rows. |
| Index.AssignMdlKeys | classes/task/assessmentsettings.php:156-162 | `$assign_mdl` has exactly the link codes of the local rows, and each entry's `lc` is its key. |
| Index.AssignMdlLastWins | classes/task/assessmentsettings.php:156-162 | A link code holds the id, course module and name of its last row. |
| Index.AssignMdlDisjoint | classes/task/assessmentsettings.php:84-162 | With distinct assignment ids among the rows, no two entries share an id or a link code. |
| Index.AssessExt | classes/task/assessmentsettings.php:164-172 | Definition of `$assess_ext` as a fold. Its properties are in `Index.AssessExtKeys` and `Index.AssessExtLastWins`. |
| Index.BuildAssessExt | classes/task/assessmentsettings.php:164-172 | The `$assess_ext` loop computes `AssessExt` of the fetched rows. |
| Index.AssessExtKeys | classes/task/assessmentsettings.php:164-172 | `$assess_ext` has exactly the `assessment_idcode` values of the rows (null as `""`), and each entry's `lc` is its key. |
| Index.AssessExtLastWins | classes/task/assessmentsettings.php:164-172 | The last row with a code wins; its `ms` is the row's `assessment_markscheme_code`. |
| Index.IsExtension | classes/task/assessmentsettings.php:177 | Definition of the filter of line 177. Its properties are in `Index.StudentsSkip` and `Index.StudentsKeys`. |
| Index.Students | classes/task/assessmentsettings.php:174-185 | Definition of `$student` as a fold. Its properties are in `Index.StudentsKeys`, `Index.StudentsLastWins` and `Index.StudentsSkip`. |
| Index.BuildStudents | classes/task/assessmentsettings.php:174-185 | The `$student` loop computes `Students` of the fetched rows. |
| Index.StudentsKeys | classes/task/assessmentsettings.php:175-185 | A key `student_code . assessment_idcode` is present exactly when some row passes the filter of line 177 and has that key. |
| Index.StudentsLastWins | classes/task/assessmentsettings.php:175-185 | A stored extension is the last passing row with its key, all six fields copied unchanged. |
| Index.StudentsSkip | classes/task/assessmentsettings.php:177 | A row without a truthy `assessment_idcode`, or with neither extension date nor time, adds nothing. |
| LocalStore.LocalDb.constructor | classes/task/assessmentsettings.php:52 | The local tables start in the given state. |
| LocalStore.LocalDb.GetAssignField | classes/task/assessmentsettings.php:208 | `get_field('assign', f, id)`: the column value, or false (`None`) for a missing row. |
| LocalStore.LocalDb.SetAssignField | classes/task/assessmentsettings.php:209 | `set_field('assign', f, v, id)` rewrites one column of one row. A missing row is not created. |
| LocalStore.LocalDb.GetGradeItem | classes/task/assessmentsettings.php:269 | `get_record('grade_items', idnumber)`: the item, or false. |
| LocalStore.LocalDb.SetGradeItemScaleId | classes/task/assessmentsettings.php:275 | Writes the grade item's `scaleid`; 0 stands for the NULL written at line 279. |
| LocalStore.LocalDb.SetGradeItemType | classes/task/assessmentsettings.php:277 | Writes the grade item's `gradetype` (also at line 281). |
| LocalStore.LocalDb.GetTurnitinName | classes/task/assessmentsettings.php:248 | The `name` column of the (cm, `use_turnitin`) row, or false. |
| LocalStore.LocalDb.SetTurnitinValue | classes/task/assessmentsettings.php:249 | Writes the `value` column of that row. |
| LocalStore.LocalDb.GetScaleId | classes/task/assessmentsettings.php:272 | The id of the scale with that name; 0 for none and for a null name. |
| LocalStore.GetAssign | classes/task/assessmentsettings.php:208 | Definition of `get_field('assign', f, id)` on the tables: the column value, or false (`None`) for a missing row. Its properties are in `LocalStore.LocalDb.GetAssignField` and `Reconcile.FlagStepAfter`. |
| LocalStore.SetAssign | classes/task/assessmentsettings.php:209 | Definition of `set_field('assign', f, v, id)` on the tables; a missing row is not created. Its properties are in `LocalStore.LocalDb.SetAssignField` and `Reconcile.FlagStepRow`. |
| LocalStore.SetScaleId | classes/task/assessmentsettings.php:275 | Definition of the `scaleid` write, 0 standing for the NULL of line 279. Its properties are in `Reconcile.RescaleWrites` and `Reconcile.ScaleStepEffect`. |
| LocalStore.SetGradeType | classes/task/assessmentsettings.php:277 | Definition of the `gradetype` write (also at line 281). Its properties are in `Reconcile.RescaleWrites` and `Reconcile.ScaleStepEffect`. |
| LocalStore.TurnitinName | classes/task/assessmentsettings.php:248 | Definition of the `name` read of the Turnitin guard: the name for an existing (cm, name) row, false otherwise. Its properties are in `Reconcile.TurnitinStepEffect` and `Reconcile.TurnitinPolicy`. |
| LocalStore.SetTurnitin | classes/task/assessmentsettings.php:249 | Definition of the `value` write of the Turnitin step; a missing row is not created. Its properties are in `Reconcile.TurnitinStepEffect` and `Reconcile.TurnitinPolicy`. |
| LocalStore.ScaleId | classes/task/assessmentsettings.php:272 | Definition of `get_field('scale', 'id', name)`: the id, 0 when no scale has the name and 0 for a null name, whose condition becomes `name IS NULL`. Its properties are in `LocalStore.LocalDb.GetScaleId` and `Reconcile.GradeScalePolicy`. |
| Reconcile.FlagStep | classes/task/assessmentsettings.php:208-209 | Definition of one guarded flag write `if (get_field(f) == test) set_field(f, write)`, a missing row reading as false. Its properties are in `Reconcile.FlagStepRow` and `Reconcile.FlagStepAfter`. |
| Reconcile.FlagSteps | classes/task/assessmentsettings.php:207-242 | Definition: the six guarded writes in source order. Its properties are in `Reconcile.FlagStepsEffect` and `Reconcile.SettleSteps`. |
| Reconcile.TurnitinStep | classes/task/assessmentsettings.php:248-251 | Definition of the Turnitin step. Its properties are in `Reconcile.TurnitinStepEffect`. |
| Reconcile.ScaleStep | classes/task/assessmentsettings.php:268-284 | Definition of the scale step, with the writes in source order. Its properties are in `Reconcile.ScaleStepEffect` and `Reconcile.GradeScalePolicy`. |
| Reconcile.CurrentScale | classes/task/assessmentsettings.php:269-270 | Definition of `$gradeitem->scaleid`, 0 for NULL and for a missing item. Its properties are in `Reconcile.ExpectedScale` and `Reconcile.GradeScalePolicy`. |
| Reconcile.MarkScheme | classes/task/assessmentsettings.php:271 | Definition of `$assess_ext[lc]['ms']`, null for a link code with no external assessment. Its properties are in `Reconcile.GradeScalePolicy` and `Reconcile.MissingAssessmentFallback`. |
| Reconcile.FoundScale | classes/task/assessmentsettings.php:271-272 | Definition of the scale id the mark-scheme code names. Its properties are in `Reconcile.GradeScalePolicy` and `Reconcile.RunSyncsScale`. |
| Reconcile.ApplyEntry | classes/task/assessmentsettings.php:191-285 | Definition of one pass of the loop body. Its properties are in `Reconcile.ApplyEntryClosedForm` and the policy lemmas. |
| Reconcile.ApplyAll | classes/task/assessmentsettings.php:189-286 | Definition of the loop over `$assign_mdl`. Its properties are in `Reconcile.RunIdempotent`, `Reconcile.RunFrame`, `Reconcile.RunSettlesFlags` and `Reconcile.RunSyncsScale`. |
| Reconcile.FlagStepRow | classes/task/assessmentsettings.php:208-209 | A guarded flag write rewrites at most the entry's row. |
| Reconcile.FlagStepAfter | classes/task/assessmentsettings.php:207-242 | Guarded writes on one row compose. |
| Reconcile.SettleSteps | classes/task/assessmentsettings.php:207-242 | The six guarded writes, in source order, amount to the flag policy on the row. |
| Reconcile.FlagStepsEffect | classes/task/assessmentsettings.php:207-242 | The six flag steps change only the entry's assign row, and only by the flag policy. |
| Reconcile.TurnitinStepEffect | classes/task/assessmentsettings.php:248-251 | The Turnitin step sets `value` to 1 exactly when the row exists and the guard passes. |
| Reconcile.ScaleStepEffect | classes/task/assessmentsettings.php:268-284 | The scale step in closed form: nothing when current and found scales agree; otherwise the grade item and the assignment grade as prescribed. |
| Reconcile.RescaleWrites | classes/task/assessmentsettings.php:275-281 | The three writes of either branch set the assignment's grade and replace the grade item, each only where the row exists. |
| Reconcile.ScaleAfterSettle | classes/task/assessmentsettings.php:268-284 | The scale step reads grade items and scales that the earlier steps did not touch. |
| Reconcile.ApplyEntryClosedForm | classes/task/assessmentsettings.php:191-285 | The writes of one loop pass, in source order, equal the closed form `Expected`. |
| Reconcile.FlagPolicies | classes/task/assessmentsettings.php:191-242 | An entry with an empty id changes nothing. Otherwise: `markingworkflow`, `submissiondrafts` and `requiresubmissionstatement` go from 0 to 1, else are kept; `sendnotifications` and `sendstudentnotifications` go from 1 to 0, else are kept; `sendlatenotifications` never changes; no other assign row changes. |
| Reconcile.ExpectedScale | classes/task/assessmentsettings.php:268-284 | The closed form follows the grading-scale policy. |
| Reconcile.GradeScalePolicy | classes/task/assessmentsettings.php:268-284 | If the scale found differs and is a scale: `scaleid` becomes it, `gradetype` 2 and `grade` its negation. If it differs and none was found: `scaleid` becomes NULL, `gradetype` 1 and `grade` 100. If they are equal, nothing is written. No other grade item changes. |
| Reconcile.MissingAssessmentFallback | classes/task/assessmentsettings.php:271-282 | A link code missing from the external map finds no scale. A grade item that has a scale falls back to points out of 100. |
| Reconcile.ExpectedTurnitin | classes/task/assessmentsettings.php:248-251 | The closed form follows the Turnitin policy. |
| Reconcile.TurnitinPolicy | classes/task/assessmentsettings.php:248-251 | The entry's `use_turnitin` value becomes 1 when the row exists and the guard passes, and is kept otherwise. No other Turnitin setting changes and no row is added. |
| Reconcile.EntryIdempotent | classes/task/assessmentsettings.php:191-285 | One loop pass applied twice equals one pass. |
| Reconcile.SettleRowTwice | classes/task/assessmentsettings.php:207-280 | A second pass over an assign row writes nothing new. |
| Reconcile.RegradeTwice | classes/task/assessmentsettings.php:273-282 | A second pass over a grade item writes nothing new. |
| Reconcile.SettleRowCommute | classes/task/assessmentsettings.php:207-280 | Writes to two different assign rows commute. |
| Reconcile.RegradeCommute | classes/task/assessmentsettings.php:275-281 | Writes to two different grade items commute. |
| Reconcile.MarkTurnitinCommute | classes/task/assessmentsettings.php:249 | Turnitin writes commute. |
| Reconcile.EntriesCommute | classes/task/assessmentsettings.php:189-286 | Two entries with different ids and link codes can be applied in either order. |
| Reconcile.CommutePastRun | classes/task/assessmentsettings.php:189-286 | An entry apart from every entry of a run commutes with the whole run. |
| Reconcile.RunIdempotent | classes/task/assessmentsettings.php:189-286 | With the same external map, a second run over disjoint entries leaves every table as the first run left it. |
| Reconcile.UpdateLoopIdempotent | classes/task/assessmentsettings.php:84-286 | The same, for `$assign_mdl` built from local rows with distinct assignment ids. |
| Reconcile.ExpectedFramed | classes/task/assessmentsettings.php:191-285 | One pass keeps the frame of `Framed`. |
| Reconcile.FramedExtend | classes/task/assessmentsettings.php:189-286 | The frames of consecutive passes compose. |
| Reconcile.RunFrame | classes/task/assessmentsettings.php:189-286 | After a run: no rows are added or removed; the scale table is untouched; assign rows and grade items no entry names keep their values; Turnitin settings other than `use_turnitin` keep theirs, and so do the `use_turnitin` settings of course modules no entry names; `sendlatenotifications` keeps its value everywhere. |
| Reconcile.RunSettlesFlags | classes/task/assessmentsettings.php:189-242 | After a run, every assignment that an entry names has its three flags on and both notification flags away from 1, in any entry order. |
| Reconcile.ExpectedItem | classes/task/assessmentsettings.php:268-284 | One entry sets its own grade item's scale to the one found, and leaves every other grade item as it was. |
| Reconcile.RunSyncsScale | classes/task/assessmentsettings.php:189-284 | After a run over disjoint entries, each entry's grade item carries the scale that the external mark-scheme code names, or 0. |
| Reconcile.GuardedFlagWrite | classes/task/assessmentsettings.php:208-209 | `if (get_field(f) == test) set_field(f, write)` on the live tables. |
| Reconcile.UpdateFlags | classes/task/assessmentsettings.php:207-242 | The six flag writes on the live tables equal `FlagSteps`. |
| Reconcile.UpdateTurnitin | classes/task/assessmentsettings.php:248-251 | The Turnitin write on the live tables equals `TurnitinStep`. |
| Reconcile.UpdateScale | classes/task/assessmentsettings.php:268-284 | The scale writes on the live tables equal `ScaleStep`. |
| Reconcile.UpdateAssignment | classes/task/assessmentsettings.php:191-285 | One pass of the loop body leaves the tables at `ApplyEntry` of the previous state. |
| Reconcile.UpdateSettings | classes/task/assessmentsettings.php:189-286 | The loop over `$assign_mdl` leaves the tables at `ApplyAll` of the entries, in key order. |
| External.Connection.constructor | classes/task/assessmentsettings.php:308 | A fresh connection has sent no statement and has not been closed. |
| External.Connection.Execute | classes/task/assessmentsettings.php:108 | `Execute` returns the answer to the statement and logs it (also at line 139). |
| External.Connection.Close | classes/task/assessmentsettings.php:291 | `Close` is counted (also at lines 119 and 150). |
| External.Connector.constructor | classes/task/assessmentsettings.php:302-330 | The connector starts with no connection attempts. |
| External.Connector.Init | classes/task/assessmentsettings.php:302-330 | `db_init` yields the connection or null, and is counted. |
| External.Fetched | classes/task/assessmentsettings.php:109-115 | The fetched rows are the normalised rows before the first empty one: the loop stops at the end and at a falsy (empty) row. |
| External.FetchedUnique | classes/task/assessmentsettings.php:109-115 | That description determines the fetched rows. |
| External.FetchAll | classes/task/assessmentsettings.php:110-114 | The `while ($fields = $rs->FetchRow())` loop computes `Fetched`. |
| Task.AssessmentSettingsTask.constructor | classes/task/assessmentsettings.php:36 | A new task has no settings loaded. |
| Task.AssessmentSettingsTask.LoadConfig | classes/task/assessmentsettings.php:446-451 | The stored settings are loaded once, on first use; a loaded cache is kept. |
| Task.AssessmentSettingsTask.GetConfig | classes/task/assessmentsettings.php:420-423 | Loads the cache, then returns the set value or the default. |
| Task.AssessmentSettingsTask.SetConfig | classes/task/assessmentsettings.php:431-438 | Loads the cache, then removes the name for null and sets it otherwise. |
| Task.AssessmentSettingsTask.DbGetSql | classes/task/assessmentsettings.php:373-391 | `db_get_sql`, with quoting and encoding read from the settings. |
| Task.AssessmentSettingsTask.DbGetSqlLike | classes/task/assessmentsettings.php:393-411 | `db_get_sql_like`, with terms `key LIKE '%value%'`. |
| Task.AssessmentSettingsTask.ScanQuery | classes/task/assessmentsettings.php:107 | Definition of `db_get_sql($table, array(), array(), true)` with the settings of the cache (also at line 138). Its properties are in `QueryBuilder.FullScan` and `Task.AssessmentSettingsTask.ReadTable`. |
| Task.AssessmentSettingsTask.Normalizer | classes/task/assessmentsettings.php:111-112 | Definition of the per-row normalisation with the cached `dbencoding` (also at lines 142-143). Its properties are in `Encoding.NormalizeField` and `Task.AssessmentSettingsTask.ReadTable`. |
| Task.AssessmentSettingsTask.ReadTable | classes/task/assessmentsettings.php:107-122 | Sends `SELECT DISTINCT *` for the table named in the settings. Returns false when `Execute` fails, otherwise the normalised rows. |
| Task.AssessmentSettingsTask.Execute | classes/task/assessmentsettings.php:50-292 | Status 0 when `dbtype` or `remotetable` is falsy, without calling `db_init` and with the connection untouched. 1 when `db_init` yields null. 4, with `Close` called exactly once and the local tables untouched, when either external read fails. Otherwise no status, one `Close`, exactly the two statements it sends after `db_init`, and the local tables at `ApplyAll` of `$assign_mdl` against `$assess_ext`. Those tables are then a fixed point: a second run against the same answers leaves them as they are. The local rows are required to have distinct ids, as `get_records_sql` keyed by `a.id` guarantees. |
| Task.AssessmentSettingsTask.Synchronise | classes/task/assessmentsettings.php:89-291 | The part of `execute` after connecting: the two reads, with status 4 after one `Close` when either fails; then the update, one final `Close`, and local tables that a second update leaves unchanged. |
| Task.AssessmentSettingsTask.UpdateLocal | classes/task/assessmentsettings.php:155-286 | Building the indexes and running the update loop leaves the local tables at `ApplyAll` of `$assign_mdl` against `$assess_ext`. With distinct assignment ids, running the loop again leaves them unchanged. |

## Left out

- `settings.php` is not part of this model. It only registers admin setting widgets.
- `db_init` internals are not modelled: driver creation, the `debugdb` output buffer, `Connect` and the `dbsetupsql` statement (lines 302-330). A `Connector` yields a connection or null instead.
- `core_text::convert` is not part of this model. It is an uninterpreted parameter, so no round trip through a real charset is claimed.
- The local join query of lines 84-87, and `$DB` itself, are not modelled. The query's result is the input `sqldates`; `$DB` is `LocalDb`.
- The `echo` progress output and the commented-out code (lines 194-205, 213-216) are not modelled. They change no state.
- `get_name` (lines 43-44) is not modelled. `load_config` (lines 446-450) reads the settings of the component `"local_" . get_name()`, and `get_name` returns the localized `pluginname` string. The constructor's `stored` map stands for whatever that call returns. `settings.php` stores the settings under `local_assessmentsettings`. The two agree only if the language string reads `assessmentsettings`. Otherwise `stored` is empty and every run returns 0. The model does not capture this mismatch.
- The persistence half of `set_config` (the global call at line 439) is not modelled. Only the cache is.
- The record set's own `Close` (lines 116, 147) is not modelled. Only connection closes are counted.
- Nested-array leaves are left out: `Encoding.Field` reads a nested value as null. Driver rows are flat.
- Concurrency and scheduling are left out: the run is single-threaded.
- Reconcile.TurnitinGuard: the outcome of `"use_turnitin" == 0` is a parameter. Under PHP 7 it is true; under PHP 8 it is false.
- With PHP 8 the bare constants of lines 166-183 throw an Error. The model follows PHP 7, which reads them as strings.
- Index.AssignMdlDisjoint, Reconcile.RunIdempotent and Task.AssessmentSettingsTask.Execute: idempotence is proved for entries with distinct assignment ids, and `Execute` requires the local rows to have distinct ids. `get_records_sql` keys its rows by `a.id`, so `$assign_mdl` never has two entries with the same id. Without that, two link codes on one assignment would break it.
- Reconcile.MissingAssessmentFallback: stated only for a grade item that currently has a scale. For an item without one, the code writes nothing.
- LocalStore.LocalDb, Reconcile.GradeScalePolicy and Reconcile.RunSyncsScale: the tables hold at most one grade item per link code, at most one scale per name and at most one `plagiarism_turnitin_config` row per (cm, name). Moodle checks idnumbers only within a course, and the local query of lines 84-87 reads every course. When two grade items share a link code, line 269's `get_record` reads one of them, and lines 275-281 rewrite all of them. So an item whose scale differs from the one read may be left unsynchronised. A course scale and a site scale with the same name make line 272 ambiguous in the same way. Duplicate Turnitin rows for one (cm, `use_turnitin`) would all be rewritten by the `set_field` of line 249; the model keys that table by (cm, name) and holds one. The model does not capture these duplicates.
- Exceptions are left out. A `dml_exception` raised by `$DB` ends `execute` without the `Close` of line 291. The model assumes every local read and write returns.
- Integer widths are left out: ids and flags are unbounded integers, since the task does no arithmetic beyond negating a scale id.
