# Job-board query builder, modelled in Dafny

This project models the data-access core of a job-board backend (an Express/PostgreSQL
application): the construction of parameterised SQL clauses, and the job repository that
uses them.

- `helpers/sql.js`, `sqlForPartialUpdate`: turns an ordered list of (field, new value)
  pairs and a field-to-column map into a `SET` clause `"col1"=$1, "col2"=$2, ...` and the
  list of values bound to those placeholders. An empty update is a `BadRequestError("No data")`.
- `models/job.js`, class `Job`:
  - `findAll` builds a `WHERE` predicate list and its bound values by appending, in the fixed
    order title, minSalary, hasEquity, and always orders by title.
  - `update` reuses the partial-update helper with `{companyHandle: "company_handle"}` and
    binds the job id as the last parameter.
  - `get`, `update` and `remove` raise `NotFoundError("No job: <id>")` when no row comes back.

Files:

- `types.dfy` (module `Types`): `Option`, the JavaScript `Value`s bound to parameters, the
  application's errors (`BadRequestError`, `NotFoundError`, plus `StorageError` for what the
  database raises), and `Result`.
- `sql_text.dfy` (module `SqlText`): the text-level building blocks. It has the decimal
  rendering of a parameter number with its parse-back, `Join` (the `Array.prototype.join`
  of the source), and `Placeholders`. `Placeholders` is a reference reading of a statement:
  it lists, left to right, the numbers of the `$n` placeholders in the text. Every "the
  placeholders are `$1..$n`, one per bound value" property below is stated with it.
- `sql.dfy` (module `Sql`): `sqlForPartialUpdate`. `ParseSetClause` is a reader for
  `SET` clauses, used to state the round trip.
- `job.dfy` (module `JobModel`): the `findAll` query, the `update` statement, and the
  class `Job`. Its field `rows: map<nat, JobRow>` stands for the jobs table, and its methods
  `FindAll`, `Get`, `Update` and `Remove` mirror the source's static methods. It also has
  three client methods that replay the repository's tests.

The update input is a sequence of pairs, not a map, because JavaScript object key order
decides the placeholder numbering. A JavaScript object cannot repeat a key, but none of the
properties needs distinct keys, so the model does not require them.

## Model

| member | source | states |
|---|---|---|
| `Sql.SqlForPartialUpdate` | helpers/sql.js:32-44 | Fails with `BadRequestError("No data")` exactly when there are no fields, whatever the map. Otherwise the bound values are the input values, untransformed, in key order, one per field. |
| `Sql.SetClauseRoundTrip` | helpers/sql.js:36-41 | Read back, the `SET` clause holds exactly one `"column"=$k` fragment per field, in key order, separated by `", "`. The i-th fragment names `jsToSql[key]` when that entry is present and non-empty, else the key. It uses placeholder `$(i+1)`, and that placeholder's bound value is the field's value. This holds when no column contains a double quote. |
| `Sql.SetClausePlaceholders` | helpers/sql.js:36-38 | The placeholders in `setCols` are exactly `$1..$n` for n fields, contiguous from 1, one per bound value. The clause starts with a quote. This holds when no column contains `$`. |
| `Sql.EmptyUpdateIgnoresMap` | helpers/sql.js:33-34 | An empty update gives the same `BadRequestError("No data")` for any two maps. |
| `Sql.SingleFieldVerbatim` | helpers/sql.js:37 | A single field gives `"<column>"=$1`: the resolved column goes between the quotes verbatim, with no escaping. |
| `Sql.EmptyMappedNameFallsBack` | helpers/sql.js:37 | For any update and map, an entry mapping a key to the empty string resolves to the key itself, as `\|\|` does. The result equals the result with that entry removed from the map. |
| `Sql.MappedAndUnmappedExample` | helpers/sql.test.js:8-15 | `{firstName:"John", age:30}` with `{firstName:"first_name"}` gives `"first_name"=$1, "age"=$2` and `["John", 30]`. |
| `Sql.NoMappingExample` | helpers/sql.test.js:18-24 | With an empty map the same input gives `"firstName"=$1, "age"=$2` and `["John", 30]`. |
| `SqlText.DecimalRoundTrip` | helpers/sql.js:37 | The decimal text written after `$` reads back as the parameter number. |
| `JobModel.Job.FindAll` | models/job.js:33-64 | Pushes onto the value and predicate lists, taking each placeholder number from the current number of values. The result equals the declarative query and values (`FindAllQuery`, `FindAllValues`). Its placeholders are exactly `$1..$n` for its n values. |
| `JobModel.FindAllPlaceholders` | models/job.js:43-59 | In the listing query, the number of `$k` placeholders equals the number of bound values, numbered contiguously from 1 in text order. |
| `JobModel.FindAllWithoutCriteria` | models/job.js:57-61 | The query is the bare select plus `ORDER BY title` (no `WHERE`) exactly when no criterion applies. Nothing is bound then. Every query ends with `ORDER BY title`. |
| `JobModel.FindAllBindings` | models/job.js:43-51 | A title gives `title ILIKE $1` bound to `%title%`. A minimum salary gives `salary >= $k` bound to that salary, with k = 2 when a title is present and 1 otherwise. |
| `JobModel.HasEquityBindsNothing` | models/job.js:53-55 | `equity > 0` is among the predicates exactly when `hasEquity` is `true`. The flag never changes the bound values. |
| `JobModel.AllCriteriaExample` | models/job.test.js:145-163 | `{title:"Job", minSalary:200000, hasEquity:true}` gives `WHERE title ILIKE $1 AND salary >= $2 AND equity > 0 ORDER BY title` with `["%Job%", 200000]`. |
| `JobModel.MinSalaryOnlyExample` | models/job.test.js:98-116 | A minimum salary alone gives `WHERE salary >= $1` with `[200000]`. |
| `JobModel.HasEquityOnlyExample` | models/job.test.js:118-143 | `hasEquity: true` alone gives `WHERE equity > 0` and binds nothing. |
| `JobModel.UpdateStatement` | models/job.js:93-106 | Fails with the helper's `BadRequestError("No data")` exactly when the update is empty. Otherwise the parameters are the field values in key order followed by the id, which comes last at position n+1. |
| `JobModel.UpdatePlaceholders` | models/job.js:96-106 | The `UPDATE` statement's placeholders are exactly `$1..$(n+1)`: the n field values first, then `WHERE id = $(n+1)`. |
| `JobModel.JobColumnNames` | models/job.js:93-95 | `companyHandle` is written to `company_handle`; every other field keeps its own name (the map is read for its own entries only, see `Sql.ColumnName` under "Left out"). |
| `JobModel.ColumnError` | models/job.js:106 | The statement is rejected by the database (a storage error) exactly when a resolved column is not a column of the jobs table or is assigned twice. |
| `JobModel.ApplyAssignmentsEffect` | models/job.js:98-101 | Running the `SET` assignments on a row gives each assigned column its value. The identity and every unassigned column keep their values. |
| `JobModel.UpdateOutcomeErrors` | models/job.js:92-112 | Errors come in this order: `BadRequestError` exactly for an empty update; then a storage error for bad columns; then `NotFoundError("No job: <id>")` exactly when no row has the id. The update succeeds exactly when the data is non-empty, the columns are valid and the row exists. |
| `JobModel.UpdateOutcomeEffect` | models/job.js:98-112 | A successful update returns the row with the same id. Each given field's column holds the given value. Every column not mentioned is unchanged. |
| `JobModel.Job.Get` | models/job.js:70-84 | Returns the row with that id and the same id inside. Fails with `NotFoundError("No job: <id>")` exactly when there is no such row. |
| `JobModel.Job.Update` | models/job.js:92-112 | Returns the update outcome against the table as it was. The table changes only on success, and then only at that id, to the returned row. |
| `JobModel.Job.Remove` | models/job.js:117-127 | Succeeds exactly when the id was present; otherwise fails with `NotFoundError("No job: <id>")`. Afterwards no row with that id remains, and no other row changes. |
| `JobModel.RemoveThenGet` | models/job.test.js:244-259 | After `remove(id)`, which succeeds exactly when the row existed, `get(id)` fails with `NotFoundError`. |
| `JobModel.EmptyUpdateThenGet` | models/job.test.js:232-239 | `update(id, {})` fails with `BadRequestError("No data")`, and the row is unchanged afterwards. |
| `JobModel.UpdateThenGet` | models/job.test.js:199-230 | A later `get` returns exactly what a successful update returned. After a failed update, `get` returns the original row, or `NotFoundError` if there was none. |

## Left out

- `Job.create` (models/job.js:15-24): a single `INSERT ... RETURNING` pass-through with no
  logic of its own. The table is given to the `Job` constructor instead.
- How the database runs statements. The model does not cover `ILIKE` case folding, the
  numeric comparison of `equity`, row selection and ordering for `findAll`, or `RETURNING`.
  `FindAll` returns the query text and its values, not rows.
- For `update`, the table is a map from id to row, and `rows[0]` missing is an absent key.
  The update applies the resolved (column, value) pairs. For columns without a double quote,
  `Sql.SetClauseRoundTrip` shows those pairs are what the `SET` text and its values mean.
- Database-side checks beyond column names: value types and coercion, `NOT NULL`, and the
  foreign key on `company_handle`. Failures of the driver or the connection are also left
  out. Row columns simply hold the bound `Value`.
- `Sql.ColumnName`: the field-to-column map stands for its own string entries only. In
  JavaScript, `jsToSql[key]` also finds members inherited from `Object.prototype`
  (`constructor`, `toString`, `__proto__`, ...), which are truthy. For such keys the source
  quotes that member's text instead of the key. Non-string falsy entries (`0`, `null`) are not
  modelled either; only the empty string falls back.
- `JobModel.UpdateOutcome` (with `JobModel.ColumnError` and `JobModel.Job.Update`): a resolved
  column containing `"` is treated as an unknown column. Because quoting does not escape, such
  a key can in fact rewrite the `SET` list into several valid assignments, which the database
  would run.
- `JobModel.ColumnError`: assigning the `id` column is treated as an unknown column. The
  database would accept it, but no caller updates the identity.
- `JobModel.UpdateOutcomeErrors`: the order unknown column, then repeated column, then
  missing row is a modelling choice for errors the database raises. The source does not
  decide it.
- `Sql.SetClauseRoundTrip` is stated only for resolved columns without `"`. Quoting does
  not escape, so a key holding a double quote would change the clause's shape (see
  `Sql.SingleFieldVerbatim`).
- `Sql.SetClausePlaceholders` is stated only for resolved columns without `$`.
- `JobModel.UpdatePlaceholders` is stated only for resolved columns without `$`, for the
  same reason.
- `Value` has text, integers and null only. JavaScript floats, `NaN` and booleans as bound
  values are not modelled. `minSalary` is an integer, and ids are natural numbers.
- The request layer: routes/jobs.js routing, JSON-schema validation, the `+q.minSalary`
  coercion, and authorisation. Also left out: token signing in helpers/tokens.js, the test
  fixtures, and the React front end under src/.
- `async`/`await` and the module-level database handle. Each operation is modelled as one
  synchronous step.
- SQL whitespace: statement texts use single spaces where the source has line breaks and
  indentation.
