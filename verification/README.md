# Statistics pipeline of the self-defined-charts backend, modelled in Dafny

The backend's `/submit_statistics` handler computes one aggregate over a
table column. A grouping column is optional. For grouped results it attaches
a display label to each group. The handler runs in four steps:

1. It reads four fields from the JSON body: table, statistic column, statistic
   function and group column.
2. It splices them, unvalidated, into the step-1 statement
   `SELECT f(c) as stat_value [, g] FROM t [GROUP BY g]`.
3. When grouping by `student_id` or `class_id`, it looks up labels
   `<id>+<name>` in `student_info` / `class_info`. The lookup lists the group
   keys in an `IN (...)` list.
4. It answers `{code: 0, data: {labels, values}}`, one label and one value per
   step-1 row. An exception is answered with `{code: -1, msg}`, except a
   missing request field, which ends in a server error (first row under
   Findings).

The model has no database. The database's answers are an input
(`Handler.Database`): the step-1 rows or the error, and the two reference
tables as maps from id to name. Each step is a pure function, and lemmas tie
them together.

| file | module | what it holds |
|---|---|---|
| outcomes.dfy | `Outcomes` | `Option`, `Result` |
| text.dfy | `Text` | Python's `join`/`split`, `str(int)` and its inverse, substring occurrence |
| values.dfy | `Values` | group keys (`Scalar`), step-1 rows, `str(key)` |
| errors.dfy | `Errors` | why a request ends without data |
| requests.dfy | `Requests` | the JSON body and the four fields |
| aggregation.dfy | `Aggregation` | the step-1 statement as clauses, its shape and text |
| labels.dfy | `Labels` | group-column classification, group keys, `IN (...)` list, lookup, fallback labels |
| assembly.dfy | `Assembly` | labels and values per row |
| handler.dfy | `Handler` | the handler as written, the corrected handler, end-to-end lemmas |

Three facts about the code shape the model:

- The code validates no identifier: every string is spliced as sent (`Aggregation.StatementText`, `Aggregation.InjectedTableReachesText`).
- Only `student_id` and `class_id` have label lookups, by exact comparison. Any other truthy group column with at least one row reads an unassigned `label` and fails (`Handler.OtherColumn`).
- The labels are the Chinese strings `总统计` (overall total), `未知学号(k)` (unknown student number) and `未知课程号(k)` (unknown course number).

## Model

| member | source | states |
|---|---|---|
| Requests.ParseRequest | backend/app.py:74-78 | the request is accepted exactly when all four keys are present, and its fields are the body's values unchanged; otherwise the error names the first missing key in reading order |
| Aggregation.ComposeAggregate | backend/app.py:87-101 | the statement reads back as select-from, plus projection and group-by exactly when the group field is truthy; projection and group-by always come together, both on the group column |
| Aggregation.StatementText | backend/app.py:87-101 | the text is select, [`, g`], `FROM t`, [`GROUP BY g`] in that order; the function, column, table and (when grouping) group column each occur in it verbatim |
| Aggregation.InjectedTableReachesText | backend/app.py:89-100 | a table field carrying `; DROP TABLE scores` reaches the statement text unchanged: nothing validates or escapes it |
| Labels.Classify | backend/app.py:107-123 | no grouping exactly when the group field is falsy; a reference table is chosen exactly when the field equals `student_id` or `class_id`, and its id column is the group column; every other truthy column has no lookup |
| Labels.GroupKeys | backend/app.py:109 | the group keys are the rows' second components, one per row, in row order |
| Labels.InListPieces | backend/app.py:116 | the `IN (...)` list is the keys' renderings separated by commas and nothing else: splitting at commas gives back each rendering in order |
| Labels.InListRoundTrip | backend/app.py:116 | for integer keys, the `IN (...)` list reads back as exactly the same integers in the same order |
| Labels.EmptyInListNamesNothing | backend/app.py:116 | with no keys the list is empty and names no key |
| Labels.LookupNamesTable | backend/app.py:113-128 | the lookup text reads `FROM` the dimension's reference table `WHERE` its id column is `IN` the list |
| Labels.LookupNamesKeys | backend/app.py:113-128 | every group key's `str` rendering appears verbatim and unquoted in the lookup text |
| Labels.FetchLabels | backend/app.py:112-131 | the lookup fails exactly when there are no keys (`IN ()`) or a key is NULL (`IN (…,None)`, an unknown column); otherwise the found labels cover exactly the listed keys the reference table has |
| Labels.LabelChoice | backend/app.py:114-142 | for every group key of a successful lookup, the label is `<key>+<name>` when the reference table has the key and the dimension's `未知…(<key>)` fallback otherwise; a missing key never fails |
| Labels.FallbackRecognisable | backend/app.py:140-142 | for an integer key, the label starts with the unknown prefix exactly when the reference table lacks the key |
| Assembly.RowLabel | backend/app.py:137-144 | labelling a row fails exactly when the group column has no branch that assigns `label` |
| Assembly.Assemble | backend/app.py:134-156 | succeeds exactly when there are no rows or some branch assigns `label`; then labels and values have one entry per row, each value is that row's statistic, and each label is that row's label |
| Handler.Labelling | backend/app.py:107-131 | only a reference-table grouping issues a lookup (exactly one), and the label step fails exactly when that lookup has no keys or a NULL key |
| Handler.LabellingCorrected | backend/app.py:107-131 | with the empty-list guard the label step fails only for a NULL key, as the code does, and issues a lookup only for a non-empty key list |
| Handler.Handle | backend/app.py:72-163 | the handler crashes exactly when reading the request fails; a success always has as many labels as values |
| Handler.HandleCorrected | backend/app.py:72-163 | the corrected handler never crashes, and a success has as many labels as values |
| Handler.SuccessAligned | backend/app.py:134-157 | a success means the request parsed, the connection opened and step 1 succeeded; it has one label and one value per row, and the values are the rows' statistics in row order |
| Handler.UngroupedLabels | backend/app.py:143-144 | without a group column the request succeeds and every label is `总统计` |
| Handler.DimensionLabels | backend/app.py:107-142 | grouped by `student_id`/`class_id` with rows and no NULL key, the request succeeds; row i's label is its key's reference label when present, else the dimension's fallback |
| Handler.NullKeyFails | backend/app.py:109-131 | grouped by `student_id`/`class_id`, one NULL group key puts `None` into the lookup's list; the lookup is rejected and the answer is `code: -1`, in the corrected handler too |
| Handler.OtherColumn | backend/app.py:135-160 | grouped by any other truthy column: `code: -1` (unassigned `label`) with at least one row, a success with empty series with none |
| Handler.StatementErrorAborts | backend/app.py:103-160 | a database error on step 1 ends the request with `code: -1` after that single statement |
| Handler.IssuedStatements | backend/app.py:85-131 | no statement without a parsed request and a connection; otherwise the composed step-1 statement first; a lookup follows exactly when step 1 succeeded and the grouping has a reference table, and it lists the rows' keys |
| Handler.MissingFieldCrashes | backend/app.py:73-163 | as written, a body lacking a field crashes the handler with no JSON envelope and sends no statement |
| Handler.CorrectedNeverCrashes | backend/app.py:159-163 | corrected, the handler never crashes; a missing field is answered with `code: -1` naming it, before any statement |
| Handler.EmptyGroupFails | backend/app.py:112-131 | as written, grouping by `student_id`/`class_id` over zero rows sends the lookup with `IN ()` and answers `code: -1` |
| Handler.CorrectedEmptyGroupSucceeds | backend/app.py:107-156 | corrected, the same request succeeds with empty series and sends only the step-1 statement |
| Handler.CorrectedAgreesElsewhere | backend/app.py:72-163 | away from the two defects, the corrected handler answers and queries exactly as the code does |
| Handler.ScoresByStudent | backend/app.py:107-156 | average score by student, with student 3 absent from `student_info`: labels `1+Alice`, `2+Bob`, `未知学号(3)`; values in row order |
| Handler.TotalWithoutGrouping | backend/app.py:87-156 | a sum without grouping over one row: labels `总统计`, values `452` |
| Values.ShowAll | backend/app.py:116 | `map(str, keys)` has one rendering per key, in key order |
| Values.ShowInt | backend/app.py:116 | `str` of an integer key has no comma, starts with a digit or minus sign, and reads back as the integer |
| Text.SplitJoin | backend/app.py:116 | joining comma-free pieces with commas and splitting again gives back the pieces |
| Text.JoinMentions | backend/app.py:116 | every part occurs in the joined text |
| Text.IntDecimalRoundTrip | backend/app.py:116 | the decimal text Python's `str` gives an integer reads back as that integer |

## Left out

- `get_tables` (backend/app.py:25-68): schema listing; it is a loop of database round trips.
- Connection plumbing: `DB_CONFIG`, `get_db_connection`, `conn.close()`, the debug `print`s and `app.run`. A failed connection is an input (`conn == None`). The `finally` clause is modelled only where it changes the answer (`Handler.MissingFieldCrashes`).
- SQL execution. The step-1 rows are an input and are not derived from the statement. The statistic is an opaque type, so `avg` producing decimals and NULL aggregates are not modelled.
- The lookup's SQL comparison. The model keeps the reference entries whose id equals a listed key. MySQL's type coercion is not modelled. A string key spliced unquoted into `IN (...)`, which MySQL would read as an identifier or expression, is not modelled either; a NULL key, spliced as `None`, is (`Handler.NullKeyFails`).
- Labels.FetchLabels: a reference row whose name is NULL is not modelled. There, `CONCAT` would yield NULL and the label would be JSON null.
- Duplicate ids in a reference table: each table is a map with one name per id. The source's dict comprehension keeps the last row.
- Python's dict equality across types (`1 == 1.0 == True`): keys compare as `Scalar` values.
- JSON values other than strings and null in the four fields, and bodies that are not JSON objects. `Requests.Field` covers null and strings only.
- The text of error messages: a failure carries a `Reason` naming its cause instead of Python's `str(e)`.
- The whitespace and line breaks of the triple-quoted SQL: statements are clause sequences with a normalised text.
- frontend/vite.config.ts: build-tool proxy configuration.

## Findings

| source | as written | input that shows it | evidently intended | confidence | as-written member | corrected member |
|---|---|---|---|---|---|---|
| backend/app.py:73-163 | a `KeyError` while reading the body goes to `except`, but `finally` then evaluates `if conn:` before `conn` is assigned; the resulting `UnboundLocalError` escapes as a server error | a JSON body without `group_column_name` | answer `{code: -1, msg}` like every other failure | high; not executed | Handler.MissingFieldCrashes | Handler.CorrectedNeverCrashes |
| backend/app.py:109-119 | with no step-1 rows, grouping by `student_id` or `class_id` still sends the lookup, and its list is `IN ()`, which MySQL's grammar rejects | group by `student_id` on a table with no rows | succeed with empty `labels` and `values`, as an ungrouped or other-column request over zero rows does | medium (relies on MySQL rejecting `IN ()`); not executed | Handler.EmptyGroupFails | Handler.CorrectedEmptyGroupSucceeds |
