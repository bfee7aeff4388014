/**
 * The job repository: the filtered listing query, the partial-update statement, and the
 * get / update / remove operations with their not-found rule, over a table of job rows.
 */
module JobModel {
  import opened Types
  import opened SqlText
  import opened Sql

  /** A row of the jobs table; the columns other than the identity hold the values bound to them. */
  datatype JobRow = JobRow(id: nat, title: Value, salary: Value, equity: Value, companyHandle: Value)

  /** The optional filters of `findAll`. */
  datatype Criteria = Criteria(title: Option<string>, minSalary: Option<int>, hasEquity: Option<bool>)

  /** A parameterised statement: its text and the values bound to `$1`, `$2`, ... */
  datatype Statement = Statement(text: string, params: seq<Value>)

  /** The columns every statement returns, under the record's field names. */
  const JobFields := "id, title, " + "salary, equity, " + "company_handle" + " AS " + "\"companyHandle\""
  const SelectJobs := "SELECT " + JobFields + " FROM jobs"
  const OrderByTitle := " ORDER BY title"
  const Returning := " RETURNING " + JobFields

  /** The field-to-column map `update` hands to the partial-update helper. */
  const JobColumns: map<string, string> := map["companyHandle" := "company_handle"]

  /** The columns an update may assign. */
  const Assignable: set<string> := {"title", "salary", "equity", "company_handle"}

  /** The message of the `NotFoundError` for `id`. */
  function NoJob(id: nat): string
  {
    "No job: " + NatToDecimal(id)
  }

  // ---------------------------------------------------------------- findAll

  /** The values `findAll` binds, in criterion order: the wrapped title, then the minimum salary. */
  function FindAllValues(c: Criteria): seq<Value>
  {
    (if c.title.Some? then [Text("%" + c.title.value + "%")] else [])
    + (if c.minSalary.Some? then [Number(c.minSalary.value)] else [])
  }

  /** `title ILIKE $k`: a case-insensitive pattern match, never an equality test. */
  function TitlePredicate(k: nat): string
  {
    "title ILIKE " + Placeholder(k)
  }

  /** `salary >= $k`: an inclusive lower bound. */
  function SalaryPredicate(k: nat): string
  {
    "salary >= " + Placeholder(k)
  }

  /** The equity test compares with a constant and binds nothing. */
  const EquityPredicate := "equity > 0"

  /**
   * The predicates `findAll` puts in its `WHERE` clause, in criterion order; the salary bound
   * takes the placeholder after the title's, if any.
   */
  function FindAllPredicates(c: Criteria): seq<string>
  {
    TitlePart(c) + SalaryPart(c) + EquityPart(c)
  }

  /** The title, salary and equity parts of the predicate list. */
  function TitlePart(c: Criteria): seq<string> { if c.title.Some? then [TitlePredicate(1)] else [] }
  function SalaryPart(c: Criteria): seq<string> { if c.minSalary.Some? then [SalaryPredicate(|TitlePart(c)| + 1)] else [] }
  function EquityPart(c: Criteria): seq<string> { if c.hasEquity == Some(true) then [EquityPredicate] else [] }

  /** The text `findAll` sends: the select, a `WHERE` clause only when some predicate applies, the ordering. */
  function FindAllQuery(c: Criteria): string
  {
    SelectJobs + WhereClause(FindAllPredicates(c)) + OrderByTitle
  }

  /** ` WHERE p1 AND p2 ...`, or nothing when there is no predicate. */
  function WhereClause(preds: seq<string>): string
  {
    if preds == [] then "" else " WHERE " + Join(preds, " AND ")
  }

  /** No criterion at all. */
  predicate NoCriteria(c: Criteria)
  {
    c.title.None? && c.minSalary.None? && c.hasEquity != Some(true)
  }

  lemma FieldsHaveNoPlaceholder()
    ensures '$' !in JobFields
  {
  }

  lemma FixedTextHasNoPlaceholder()
    ensures '$' !in SelectJobs && '$' !in OrderByTitle && '$' !in Returning
    ensures '$' !in " WHERE " && '$' !in " AND " && '$' !in EquityPredicate
    ensures '$' !in "UPDATE jobs SET " && '$' !in " WHERE id = "
  {
    FieldsHaveNoPlaceholder();
  }

  lemma TitlePredicatePlaceholders(k: nat)
    ensures Placeholders(TitlePredicate(k)) == [k] && StartsNonDigit(TitlePredicate(k))
  {
    PlaceholderOf(k);
    PlaceholdersAfter("title ILIKE ", Placeholder(k));
  }

  lemma SalaryPredicatePlaceholders(k: nat)
    ensures Placeholders(SalaryPredicate(k)) == [k] && StartsNonDigit(SalaryPredicate(k))
  {
    PlaceholderOf(k);
    PlaceholdersAfter("salary >= ", Placeholder(k));
  }

  lemma PredicateParts(c: Criteria)
    ensures |FindAllValues(c)| == |TitlePart(c)| + |SalaryPart(c)|
  {
  }

  lemma TitlePartPlaceholders(c: Criteria)
    ensures PlaceholdersEach(TitlePart(c)) == Numbering(|TitlePart(c)|)
  {
    if c.title.Some? {
      TitlePredicatePlaceholders(1);
      NumberingNext(0);
    }
  }

  lemma SalaryPartPlaceholders(c: Criteria)
    ensures PlaceholdersEach(SalaryPart(c)) == if c.minSalary.Some? then [|TitlePart(c)| + 1] else []
  {
    if c.minSalary.Some? {
      SalaryPredicatePlaceholders(|TitlePart(c)| + 1);
    }
  }

  lemma EquityPartPlaceholders(c: Criteria)
    ensures PlaceholdersEach(EquityPart(c)) == []
  {
    if c.hasEquity == Some(true) {
      PlaceholdersNone(EquityPredicate);
    }
  }

  lemma PredicatePlaceholders(c: Criteria)
    ensures PlaceholdersEach(FindAllPredicates(c)) == Numbering(|FindAllValues(c)|)
  {
    var t, s, e := TitlePart(c), SalaryPart(c), EquityPart(c);
    PredicateParts(c);
    PlaceholdersEachAppend(t + s, e);
    PlaceholdersEachAppend(t, s);
    TitlePartPlaceholders(c);
    SalaryPartPlaceholders(c);
    EquityPartPlaceholders(c);
    NumberingNext(|t|);
  }

  lemma PredicatesStartNonDigit(c: Criteria)
    ensures forall i :: 0 <= i < |FindAllPredicates(c)| ==> StartsNonDigit(FindAllPredicates(c)[i])
  {
    var t, s, e := TitlePart(c), SalaryPart(c), EquityPart(c);
    PredicateParts(c);
    var preds := t + s + e;
    forall i | 0 <= i < |preds| ensures StartsNonDigit(preds[i]) {
      if i < |t| {
        TitlePredicatePlaceholders(1);
        assert preds[i] == TitlePredicate(1);
      } else if i < |t| + |s| {
        SalaryPredicatePlaceholders(|t| + 1);
        assert preds[i] == SalaryPredicate(|t| + 1);
      } else {
        assert preds[i] == EquityPredicate;
      }
    }
  }

  /**
   * The listing query's placeholders are exactly `$1..$n` for its n bound values, read left
   * to right: the title's value is `$1`, the salary bound the next one.
   */
  lemma FindAllPlaceholders(c: Criteria)
    ensures Placeholders(FindAllQuery(c)) == Numbering(|FindAllValues(c)|)
  {
    var preds := FindAllPredicates(c);
    PredicatePlaceholders(c);
    PredicatesStartNonDigit(c);
    WherePlaceholders(preds);
    FixedTextHasNoPlaceholder();
    TextAround(SelectJobs, WhereClause(preds), OrderByTitle);
  }

  /** The `WHERE` clause holds the placeholders of its predicates, in order. */
  lemma WherePlaceholders(preds: seq<string>)
    requires forall i :: 0 <= i < |preds| ==> StartsNonDigit(preds[i])
    ensures Placeholders(WhereClause(preds)) == PlaceholdersEach(preds)
    ensures WhereClause(preds) == [] || StartsNonDigit(WhereClause(preds))
  {
    if preds != [] {
      FixedTextHasNoPlaceholder();
      LeadJoinPlaceholders(" WHERE ", preds, " AND ");
    }
  }

  /** Placeholder-free lead text, then predicates joined by a placeholder-free separator. */
  lemma LeadJoinPlaceholders(lead: string, preds: seq<string>, sep: string)
    requires '$' !in lead && StartsNonDigit(lead)
    requires '$' !in sep && StartsNonDigit(sep)
    requires preds != [] && forall i :: 0 <= i < |preds| ==> StartsNonDigit(preds[i])
    ensures Placeholders(lead + Join(preds, sep)) == PlaceholdersEach(preds)
    ensures StartsNonDigit(lead + Join(preds, sep))
  {
    JoinStart(preds, sep);
    PlaceholdersJoin(preds, sep);
    PlaceholdersAfter(lead, Join(preds, sep));
  }

  /** Placeholder-free text around a middle part adds no placeholder. */
  lemma TextAround(prefix: string, middle: string, suffix: string)
    requires '$' !in prefix && '$' !in suffix && StartsNonDigit(suffix)
    requires middle == [] || StartsNonDigit(middle)
    ensures Placeholders(prefix + middle + suffix) == Placeholders(middle)
  {
    PlaceholdersAfter(prefix, middle);
    PlaceholdersBefore(prefix + middle, suffix);
  }

  /**
   * `WHERE` is left out exactly when no criterion applies, and then nothing is bound;
   * the query always ends with the ordering by title.
   */
  lemma FindAllWithoutCriteria(c: Criteria)
    ensures NoCriteria(c) <==> FindAllQuery(c) == SelectJobs + OrderByTitle
    ensures NoCriteria(c) ==> FindAllValues(c) == []
    ensures var q := FindAllQuery(c); |q| >= |OrderByTitle| && q[|q| - |OrderByTitle|..] == OrderByTitle
  {
    var preds := FindAllPredicates(c);
    var q := FindAllQuery(c);
    if preds != [] {
      assert |q| > |SelectJobs + OrderByTitle|;
    }
    assert q[|q| - |OrderByTitle|..] == OrderByTitle;
  }

  /** The equity flag adds a constant predicate and never a bound value. */
  lemma HasEquityBindsNothing(c: Criteria)
    ensures FindAllValues(c) == FindAllValues(c.(hasEquity := None))
    ensures c.hasEquity == Some(true) <==> EquityPredicate in FindAllPredicates(c)
  {
    if c.hasEquity != Some(true) {
      forall p | p in FindAllPredicates(c) ensures p != EquityPredicate {
        assert p[0] == 't' || p[0] == 's';
      }
    }
  }

  /**
   * Each bound criterion's predicate uses the placeholder whose value is that criterion's:
   * the title as a substring pattern `%title%` under `ILIKE`, the salary as an inclusive bound.
   */
  lemma FindAllBindings(c: Criteria)
    ensures c.title.Some? ==>
              TitlePredicate(1) in FindAllPredicates(c) && FindAllValues(c)[0] == Text("%" + c.title.value + "%")
    ensures c.minSalary.Some? ==>
              var k := |FindAllValues(c)|;
              k == (if c.title.Some? then 2 else 1) &&
              SalaryPredicate(k) in FindAllPredicates(c) &&
              FindAllValues(c)[k - 1] == Number(c.minSalary.value)
  {
  }

  /** The combined filter of the repository's tests: all three criteria. */
  lemma AllCriteriaExample()
    ensures FindAllQuery(Criteria(Some("Job"), Some(200000), Some(true)))
            == SelectJobs + (" WHERE " + ("title ILIKE $1" + " AND " + ("salary >= $2" + " AND " + "equity > 0"))) + OrderByTitle
    ensures FindAllValues(Criteria(Some("Job"), Some(200000), Some(true))) == [Text("%Job%"), Number(200000)]
  {
    var c := Criteria(Some("Job"), Some(200000), Some(true));
    assert NatToDecimal(1) == "1" && NatToDecimal(2) == "2";
    assert TitlePredicate(1) == "title ILIKE $1";
    assert SalaryPredicate(2) == "salary >= $2";
    assert FindAllPredicates(c) == ["title ILIKE $1", "salary >= $2", "equity > 0"];
    WhereOfThree("title ILIKE $1", "salary >= $2", "equity > 0");
    assert "%" + "Job" + "%" == "%Job%";
  }

  lemma WhereOfThree(a: string, b: string, c: string)
    ensures WhereClause([a, b, c]) == " WHERE " + (a + " AND " + (b + " AND " + c))
  {
    assert [a, b, c][1..] == [b, c];
    assert [b, c][1..] == [c];
    assert Join([b, c], " AND ") == b + " AND " + c;
    assert Join([a, b, c], " AND ") == a + " AND " + Join([b, c], " AND ");
  }

  /** A minimum salary alone is placeholder 1. */
  lemma MinSalaryOnlyExample()
    ensures FindAllQuery(Criteria(None, Some(200000), None)) == SelectJobs + " WHERE " + "salary >= $1" + OrderByTitle
    ensures FindAllValues(Criteria(None, Some(200000), None)) == [Number(200000)]
  {
    assert NatToDecimal(1) == "1";
    assert SalaryPredicate(1) == "salary >= $1";
    assert FindAllPredicates(Criteria(None, Some(200000), None)) == ["salary >= $1"];
  }

  /** The equity flag alone adds its predicate and binds nothing. */
  lemma HasEquityOnlyExample()
    ensures FindAllQuery(Criteria(None, None, Some(true))) == SelectJobs + " WHERE " + "equity > 0" + OrderByTitle
    ensures FindAllValues(Criteria(None, None, Some(true))) == []
  {
    assert FindAllPredicates(Criteria(None, None, Some(true))) == ["equity > 0"];
  }

  // ---------------------------------------------------------------- update statement

  /**
   * The statement `update` sends: the partial-update clause over `JobColumns`, with `id`
   * bound last, at position `values.length + 1`. An empty update fails before any statement.
   */
  function UpdateStatement(id: nat, data: seq<(string, Value)>): (r: Result<Statement>)
    ensures r.Failure? <==> data == []
    ensures r.Failure? ==> r.error == BadRequestError("No data")
    ensures r.Success? ==>
              |r.value.params| == |data| + 1 && r.value.params[|data|] == Number(id) &&
              forall i :: 0 <= i < |data| ==> r.value.params[i] == data[i].1
  {
    match SqlForPartialUpdate(data, JobColumns)
    case Failure(e) => Failure(e)
    case Success(SetClause(setCols, values)) =>
      var idVarIdx := Placeholder(|values| + 1);
      Success(Statement("UPDATE jobs SET " + setCols + " WHERE id = " + idVarIdx + Returning, values + [Number(id)]))
  }

  /**
   * The update statement's placeholders are `$1..$(n+1)` for n fields: the fields' values
   * first, then the identity. Holds when no resolved column contains a `$`.
   */
  lemma UpdatePlaceholders(id: nat, data: seq<(string, Value)>)
    requires data != []
    requires forall i :: 0 <= i < |data| ==> '$' !in ColumnName(JobColumns, data[i].0)
    ensures UpdateStatement(id, data).Success?
    ensures var stmt := UpdateStatement(id, data).value;
            Placeholders(stmt.text) == Numbering(|stmt.params|)
  {
    var clause := SqlForPartialUpdate(data, JobColumns).value;
    SetClausePlaceholders(data, JobColumns);
    UpdateTextPlaceholders(clause.setCols, |clause.values|);
  }

  lemma UpdateTextPlaceholders(setCols: string, n: nat)
    requires Placeholders(setCols) == Numbering(n) && StartsNonDigit(setCols)
    ensures Placeholders("UPDATE jobs SET " + setCols + " WHERE id = " + Placeholder(n + 1) + Returning) == Numbering(n + 1)
  {
    FieldsHaveNoPlaceholder();
    assert '$' !in Returning && Returning[0] == ' ';
    assert '$' !in " WHERE id = " && '$' !in "UPDATE jobs SET ";
    PlaceholderOf(n + 1);
    ClauseBetween("UPDATE jobs SET ", setCols, " WHERE id = ", Placeholder(n + 1), Returning, n);
  }

  /**
   * A clause numbered `$1..$n`, then the placeholder `$(n+1)`, with placeholder-free text
   * around them, is numbered `$1..$(n+1)`.
   */
  lemma ClauseBetween(prefix: string, clause: string, mid: string, idText: string, suffix: string, n: nat)
    requires '$' !in prefix && '$' !in mid && '$' !in suffix
    requires StartsNonDigit(mid) && StartsNonDigit(suffix)
    requires Placeholders(clause) == Numbering(n) && StartsNonDigit(clause)
    requires Placeholders(idText) == [n + 1] && idText != [] && idText[0] == '$'
    ensures Placeholders(prefix + clause + mid + idText + suffix) == Numbering(n + 1)
  {
    PlaceholdersAfter(prefix, clause);
    PlaceholdersBefore(prefix + clause, mid);
    PlaceholdersAppend(prefix + clause + mid, idText);
    PlaceholdersBefore(prefix + clause + mid + idText, suffix);
    NumberingNext(n);
  }

  /** `companyHandle` is written to `company_handle`; every other field keeps its own name. */
  lemma JobColumnNames(key: string)
    ensures ColumnName(JobColumns, key) == (if key == "companyHandle" then "company_handle" else key)
    ensures ColumnName(JobColumns, key) in Assignable <==> key in {"title", "salary", "equity", "companyHandle", "company_handle"}
  {
  }

  // ---------------------------------------------------------------- the store's side of an update

  /** The value a row holds in an assignable column. */
  function ColumnValue(job: JobRow, column: string): Value
    requires column in Assignable
  {
    if column == "title" then job.title
    else if column == "salary" then job.salary
    else if column == "equity" then job.equity
    else job.companyHandle
  }

  /** The row with one assignable column set. */
  function SetColumn(job: JobRow, column: string, v: Value): (j: JobRow)
    requires column in Assignable
    ensures j.id == job.id && ColumnValue(j, column) == v
    ensures forall c :: c in Assignable && c != column ==> ColumnValue(j, c) == ColumnValue(job, c)
  {
    if column == "title" then job.(title := v)
    else if column == "salary" then job.(salary := v)
    else if column == "equity" then job.(equity := v)
    else job.(companyHandle := v)
  }

  /** The row after applying the assignments left to right. */
  function ApplyAssignments(job: JobRow, assigns: seq<(string, Value)>): (j: JobRow)
    requires forall i :: 0 <= i < |assigns| ==> assigns[i].0 in Assignable
    ensures j.id == job.id
    decreases |assigns|
  {
    if assigns == [] then job else ApplyAssignments(SetColumn(job, assigns[0].0, assigns[0].1), assigns[1..])
  }

  predicate Distinct(cols: seq<string>)
  {
    forall i, j :: 0 <= i < j < |cols| ==> cols[i] != cols[j]
  }

  /** The first column that the table does not have, if any. */
  function FirstUnknown(cols: seq<string>): (r: Option<string>)
    ensures r.None? <==> forall i :: 0 <= i < |cols| ==> cols[i] in Assignable
    ensures r.Some? ==> r.value in cols && r.value !in Assignable
  {
    if cols == [] then None
    else if cols[0] !in Assignable then Some(cols[0])
    else FirstUnknown(cols[1..])
  }

  /** The first column assigned more than once, if any. */
  function FirstRepeated(cols: seq<string>): (r: Option<string>)
    ensures r.None? <==> Distinct(cols)
    ensures r.Some? ==> multiset(cols)[r.value] >= 2
  {
    if cols == [] then None
    else if cols[0] in cols[1..] then
      assert cols == [cols[0]] + cols[1..];
      Some(cols[0])
    else
      var r := FirstRepeated(cols[1..]);
      assert cols == [cols[0]] + cols[1..];
      if r.None? then
        assert forall j :: 1 <= j < |cols| ==> cols[j] == cols[1..][j - 1];
        r
      else r
  }

  /**
   * The storage error the database raises for the assigned columns: an unknown column first,
   * then a column assigned twice; none when every column exists and each is assigned once.
   */
  function ColumnError(cols: seq<string>): (r: Option<ExpressError>)
    ensures r.None? <==> (forall i :: 0 <= i < |cols| ==> cols[i] in Assignable) && Distinct(cols)
    ensures r.Some? ==> r.value.StorageError?
  {
    match FirstUnknown(cols)
    case Some(col) => Some(StorageError("column \"" + col + "\" of relation \"jobs\" does not exist"))
    case None =>
      match FirstRepeated(cols)
      case Some(col) => Some(StorageError("multiple assignments to same column \"" + col + "\""))
      case None => None
  }

  /**
   * Applying assignments to distinct columns gives each assigned column its value and leaves
   * the identity and every other column as they were.
   */
  lemma {:induction false} ApplyAssignmentsEffect(job: JobRow, assigns: seq<(string, Value)>)
    requires forall i :: 0 <= i < |assigns| ==> assigns[i].0 in Assignable
    requires forall i, j :: 0 <= i < j < |assigns| ==> assigns[i].0 != assigns[j].0
    ensures ApplyAssignments(job, assigns).id == job.id
    ensures forall i :: 0 <= i < |assigns| ==> ColumnValue(ApplyAssignments(job, assigns), assigns[i].0) == assigns[i].1
    ensures forall c :: c in Assignable && (forall i :: 0 <= i < |assigns| ==> assigns[i].0 != c) ==>
              ColumnValue(ApplyAssignments(job, assigns), c) == ColumnValue(job, c)
    decreases |assigns|
  {
    if assigns != [] {
      var first := SetColumn(job, assigns[0].0, assigns[0].1);
      var rest := assigns[1..];
      ApplyAssignmentsEffect(first, rest);
      assert forall i :: 0 <= i < |rest| ==> rest[i].0 != assigns[0].0;
      forall i | 0 <= i < |assigns|
        ensures ColumnValue(ApplyAssignments(job, assigns), assigns[i].0) == assigns[i].1
      {
        if i > 0 {
          assert assigns[i] == rest[i - 1];
        }
      }
      forall c | c in Assignable && (forall i :: 0 <= i < |assigns| ==> assigns[i].0 != c)
        ensures ColumnValue(ApplyAssignments(job, assigns), c) == ColumnValue(job, c)
      {
        assert assigns[0].0 != c;
        assert forall i :: 0 <= i < |rest| ==> rest[i].0 == assigns[i + 1].0;
      }
    }
  }

  /** Every row is stored under its own identity. */
  predicate KeyedById(rows: map<nat, JobRow>)
  {
    forall id :: id in rows ==> rows[id].id == id
  }

  /**
   * What `update(id, data)` returns against the table `rows`: the helper's `BadRequestError` for
   * an empty update, then the storage error for the assigned columns, then `NotFoundError` when
   * no row has that identity, otherwise the row with the assignments applied.
   */
  function UpdateOutcome(rows: map<nat, JobRow>, id: nat, data: seq<(string, Value)>): Result<JobRow>
  {
    match UpdateStatement(id, data)
    case Failure(e) => Failure(e)
    case Success(_) =>
      match ColumnError(Columns(data, JobColumns))
      case Some(e) => Failure(e)
      case None =>
        assert forall i :: 0 <= i < |data| ==> Assignments(data, JobColumns)[i].0 == Columns(data, JobColumns)[i];
        if id !in rows then Failure(NotFoundError(NoJob(id)))
        else Success(ApplyAssignments(rows[id], Assignments(data, JobColumns)))
  }

  /** Which error `update` raises, and when it succeeds. */
  lemma UpdateOutcomeErrors(rows: map<nat, JobRow>, id: nat, data: seq<(string, Value)>)
    ensures var r := UpdateOutcome(rows, id, data);
            var cols := Columns(data, JobColumns);
            var columnsOk := (forall i :: 0 <= i < |cols| ==> cols[i] in Assignable) && Distinct(cols);
            (r == Failure(BadRequestError("No data")) <==> data == []) &&
            (r.Failure? && r.error.StorageError? <==> data != [] && !columnsOk) &&
            (r == Failure(NotFoundError(NoJob(id))) <==> data != [] && columnsOk && id !in rows) &&
            (r.Success? <==> data != [] && columnsOk && id in rows)
  {
  }

  /**
   * A successful update returns the row with the same identity, each given field's column
   * holding the given value, and every column not mentioned unchanged.
   */
  lemma UpdateOutcomeEffect(rows: map<nat, JobRow>, id: nat, data: seq<(string, Value)>)
    requires KeyedById(rows)
    requires UpdateOutcome(rows, id, data).Success?
    ensures id in rows && UpdateOutcome(rows, id, data).value.id == id
    ensures forall i :: 0 <= i < |data| ==> Columns(data, JobColumns)[i] in Assignable
    ensures forall i :: 0 <= i < |data| ==>
              ColumnValue(UpdateOutcome(rows, id, data).value, Columns(data, JobColumns)[i]) == data[i].1
    ensures forall c :: c in Assignable && c !in Columns(data, JobColumns) ==>
              ColumnValue(UpdateOutcome(rows, id, data).value, c) == ColumnValue(rows[id], c)
  {
    var cols := Columns(data, JobColumns);
    var assigns := Assignments(data, JobColumns);
    assert forall i :: 0 <= i < |assigns| ==> assigns[i].0 == cols[i];
    ApplyAssignmentsEffect(rows[id], assigns);
    forall c | c in Assignable && c !in cols
      ensures forall i :: 0 <= i < |assigns| ==> assigns[i].0 != c
    {
      forall i | 0 <= i < |assigns| ensures assigns[i].0 != c {
        assert cols[i] in cols;
      }
    }
  }

  // ---------------------------------------------------------------- the repository

  /**
   * The `Job` repository over the jobs table: `rows` stands for the table that the
   * statements run against, keyed by identity.
   */
  class Job {
    var rows: map<nat, JobRow>

    ghost predicate Valid()
      reads this
    {
      KeyedById(rows)
    }

    constructor (initial: map<nat, JobRow>)
      requires KeyedById(initial)
      ensures Valid() && rows == initial
    {
      rows := initial;
    }

    /**
     * `findAll(criteria)`: builds the predicate list and the value list by appending, taking
     * each placeholder number from the current number of values.
     */
    static method FindAll(c: Criteria) returns (query: string, queryValues: seq<Value>)
      ensures query == FindAllQuery(c) && queryValues == FindAllValues(c)
      ensures Placeholders(query) == Numbering(|queryValues|)
    {
      query := SelectJobs;
      var whereExpressions: seq<string> := [];
      queryValues := [];

      if c.title.Some? {
        queryValues := queryValues + [Text("%" + c.title.value + "%")];
        whereExpressions := whereExpressions + [TitlePredicate(|queryValues|)];
      }

      if c.minSalary.Some? {
        queryValues := queryValues + [Number(c.minSalary.value)];
        whereExpressions := whereExpressions + [SalaryPredicate(|queryValues|)];
      }

      if c.hasEquity == Some(true) {
        whereExpressions := whereExpressions + [EquityPredicate];
      }

      if |whereExpressions| > 0 {
        query := query + (" WHERE " + Join(whereExpressions, " AND "));
      }

      query := query + OrderByTitle;
      assert whereExpressions == FindAllPredicates(c);
      FindAllPlaceholders(c);
    }

    /** `get(id)`: the row with that identity, or `NotFoundError` when there is none. */
    method Get(id: nat) returns (r: Result<JobRow>)
      requires Valid()
      ensures r.Success? <==> id in rows
      ensures r.Success? ==> r.value == rows[id] && r.value.id == id
      ensures r.Failure? ==> r.error == NotFoundError(NoJob(id))
    {
      if id !in rows {
        return Failure(NotFoundError(NoJob(id)));
      }
      r := Success(rows[id]);
    }

    /**
     * `update(id, data)`: builds the statement (an empty update fails here, before the table
     * is touched), then the table applies it to the row with that identity.
     */
    method Update(id: nat, data: seq<(string, Value)>) returns (r: Result<JobRow>)
      requires Valid()
      modifies this
      ensures Valid()
      ensures r == UpdateOutcome(old(rows), id, data)
      ensures rows == if r.Success? then old(rows)[id := r.value] else old(rows)
    {
      var stmt := UpdateStatement(id, data);
      if stmt.Failure? {
        return Failure(stmt.error);
      }
      var err := ColumnError(Columns(data, JobColumns));
      if err.Some? {
        return Failure(err.value);
      }
      if id !in rows {
        return Failure(NotFoundError(NoJob(id)));
      }
      assert forall i :: 0 <= i < |data| ==> Assignments(data, JobColumns)[i].0 == Columns(data, JobColumns)[i];
      var job := ApplyAssignments(rows[id], Assignments(data, JobColumns));
      rows := rows[id := job];
      r := Success(job);
    }

    /** `remove(id)`: deletes the row with that identity, or `NotFoundError` when there is none. */
    method Remove(id: nat) returns (r: Result<()>)
      requires Valid()
      modifies this
      ensures Valid()
      ensures r.Success? <==> id in old(rows)
      ensures r.Failure? ==> r.error == NotFoundError(NoJob(id))
      ensures rows == old(rows) - {id}
    {
      if id !in rows {
        return Failure(NotFoundError(NoJob(id)));
      }
      rows := rows - {id};
      r := Success(());
    }
  }

  // ---------------------------------------------------------------- clients

  /** After a successful or failed removal, fetching the same identity fails with `NotFoundError`. */
  method RemoveThenGet(initial: map<nat, JobRow>, id: nat) returns (removed: Result<()>, fetched: Result<JobRow>)
    requires KeyedById(initial)
    ensures removed.Success? <==> id in initial
    ensures fetched == Failure(NotFoundError(NoJob(id)))
  {
    var jobs := new Job(initial);
    removed := jobs.Remove(id);
    fetched := jobs.Get(id);
  }

  /** An empty update fails with `BadRequestError` and leaves the row as it was. */
  method EmptyUpdateThenGet(initial: map<nat, JobRow>, id: nat) returns (updated: Result<JobRow>, fetched: Result<JobRow>)
    requires KeyedById(initial)
    ensures updated == Failure(BadRequestError("No data"))
    ensures fetched.Success? <==> id in initial
    ensures fetched.Success? ==> fetched.value == initial[id]
  {
    var jobs := new Job(initial);
    updated := jobs.Update(id, []);
    fetched := jobs.Get(id);
  }

  /** A successful update is what a later `get` of the same identity returns. */
  method UpdateThenGet(initial: map<nat, JobRow>, id: nat, data: seq<(string, Value)>)
    returns (updated: Result<JobRow>, fetched: Result<JobRow>)
    requires KeyedById(initial)
    ensures updated.Success? <==> id in initial && UpdateOutcome(initial, id, data).Success?
    ensures updated.Success? ==> fetched == updated && fetched.value.id == id
    ensures updated.Failure? ==> fetched == (if id in initial then Success(initial[id]) else Failure(NotFoundError(NoJob(id))))
  {
    var jobs := new Job(initial);
    updated := jobs.Update(id, data);
    fetched := jobs.Get(id);
  }
}
