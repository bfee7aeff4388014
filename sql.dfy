/**
 * The partial-update helper: from an ordered list of (field, new value) pairs and a
 * field-to-column map, the `SET` clause of an UPDATE statement and its bound values.
 */
module Sql {
  import opened Types
  import opened SqlText

  /** The result of `sqlForPartialUpdate`: the `SET` clause text and the values it binds. */
  datatype SetClause = SetClause(setCols: string, values: seq<Value>)

  /**
   * `jsToSql[key] || key`: the mapped column when the map has a non-empty entry for `key`,
   * otherwise the key itself.
   */
  function ColumnName(jsToSql: map<string, string>, key: string): string
  {
    if key in jsToSql && jsToSql[key] != "" then jsToSql[key] else key
  }

  /** One fragment `"column"=$position`; the column is quoted without escaping. */
  function Assignment(column: string, position: nat): string
  {
    "\"" + column + "\"=" + Placeholder(position)
  }

  /** The resolved column of every key, in key order. */
  function Columns(data: seq<(string, Value)>, jsToSql: map<string, string>): (cols: seq<string>)
    ensures |cols| == |data|
  {
    seq(|data|, i requires 0 <= i < |data| => ColumnName(jsToSql, data[i].0))
  }

  /** What the clause asks the store to do: each resolved column paired with its new value. */
  function Assignments(data: seq<(string, Value)>, jsToSql: map<string, string>): (a: seq<(string, Value)>)
    ensures |a| == |data|
  {
    seq(|data|, i requires 0 <= i < |data| => (ColumnName(jsToSql, data[i].0), data[i].1))
  }

  /**
   * `sqlForPartialUpdate(dataToUpdate, jsToSql)`. An empty update is a `BadRequestError`
   * whatever the map holds; otherwise the values are the input values, untouched, in key order.
   */
  function SqlForPartialUpdate(dataToUpdate: seq<(string, Value)>, jsToSql: map<string, string>): (r: Result<SetClause>)
    ensures r.Failure? <==> dataToUpdate == []
    ensures r.Failure? ==> r.error == BadRequestError("No data")
    ensures r.Success? ==>
              |r.value.values| == |dataToUpdate| &&
              forall i :: 0 <= i < |dataToUpdate| ==> r.value.values[i] == dataToUpdate[i].1
  {
    if |dataToUpdate| == 0 then Failure(BadRequestError("No data"))
    else
      var cols := seq(|dataToUpdate|, idx requires 0 <= idx < |dataToUpdate| =>
                        Assignment(ColumnName(jsToSql, dataToUpdate[idx].0), idx + 1));
      Success(SetClause(Join(cols, ", "), seq(|dataToUpdate|, i requires 0 <= i < |dataToUpdate| => dataToUpdate[i].1)))
  }

  /** Splits `s` at its first double quote: the text before it, and the rest from the quote on. */
  function SplitAtQuote(s: string): (r: (string, string))
    ensures |r.1| <= |s|
  {
    if s == [] || s[0] == '"' then ([], s)
    else
      var (before, rest) := SplitAtQuote(s[1..]);
      ([s[0]] + before, rest)
  }

  /**
   * Reads one `"column"=$k` fragment from the front of `s`, as the database's parser would,
   * returning the column, the placeholder number and the text after it.
   */
  function ParseAssignment(s: string): (r: Option<((string, nat), string)>)
    ensures r.Some? ==> |r.value.1| < |s|
  {
    if s == [] || s[0] != '"' then None
    else
      var (column, after) := SplitAtQuote(s[1..]);
      if |after| < 3 || after[0] != '"' || after[1] != '=' || after[2] != '$' then None
      else
        var (digits, rest) := TakeDigits(after[3..]);
        if digits == [] then None
        else Some(((column, ParseDecimal(digits)), rest))
  }

  /** Reads a whole `SET` clause: fragments separated by `", "`. */
  function ParseSetClause(s: string): Option<seq<(string, nat)>>
    decreases |s|
  {
    match ParseAssignment(s)
    case None => None
    case Some((a, rest)) =>
      if rest == [] then Some([a])
      else if |rest| >= 2 && rest[0] == ',' && rest[1] == ' ' then
        match ParseSetClause(rest[2..])
        case None => None
        case Some(more) => Some([a] + more)
      else None
  }

  lemma {:induction false} SplitAtQuoteOf(x: string, y: string)
    requires '"' !in x
    requires y == [] || y[0] == '"'
    ensures SplitAtQuote(x + y) == (x, y)
  {
    if x == [] {
      assert x + y == y;
    } else {
      assert (x + y)[0] == x[0];
      assert (x + y)[1..] == x[1..] + y;
      SplitAtQuoteOf(x[1..], y);
      assert [x[0]] + x[1..] == x;
    }
  }

  lemma ParseAssignmentOf(column: string, position: nat, tail: string)
    requires '"' !in column
    requires tail == [] || !IsDigit(tail[0])
    ensures ParseAssignment(Assignment(column, position) + tail) == Some(((column, position), tail))
  {
    var d := NatToDecimal(position);
    assert Assignment(column, position) + tail == "\"" + column + "\"=" + ("$" + d) + tail;
    ParseFragment(column, d, tail);
    DecimalRoundTrip(position);
  }

  /** `"column"=$digits` followed by a tail reads back as its column and digits. */
  lemma ParseFragment(column: string, d: string, tail: string)
    requires '"' !in column
    requires d != [] && AllDigits(d)
    requires tail == [] || !IsDigit(tail[0])
    ensures ParseAssignment("\"" + column + "\"=" + ("$" + d) + tail) == Some(((column, ParseDecimal(d)), tail))
  {
    var after := "\"=$" + (d + tail);
    assert "\"" + column + "\"=" + ("$" + d) + tail == ['"'] + (column + after);
    ParseAfterColumn(column, after, d, tail);
  }

  lemma ParseAfterColumn(column: string, after: string, d: string, tail: string)
    requires '"' !in column
    requires |after| >= 3 && after[0] == '"' && after[1] == '=' && after[2] == '$' && after[3..] == d + tail
    requires d != [] && AllDigits(d)
    requires tail == [] || !IsDigit(tail[0])
    ensures ParseAssignment(['"'] + (column + after)) == Some(((column, ParseDecimal(d)), tail))
  {
    var s := ['"'] + (column + after);
    assert s[1..] == column + after;
    SplitAtQuoteOf(column, after);
    TakeDigitsOfDigits(d, tail);
  }

  lemma {:induction false} ParseJoinedAssignments(cols: seq<string>, first: nat)
    requires |cols| > 0
    requires forall i :: 0 <= i < |cols| ==> '"' !in cols[i]
    ensures ParseSetClause(Join(seq(|cols|, i requires 0 <= i < |cols| => Assignment(cols[i], first + i)), ", "))
            == Some(seq(|cols|, i requires 0 <= i < |cols| => (cols[i], first + i)))
  {
    var parts := seq(|cols|, i requires 0 <= i < |cols| => Assignment(cols[i], first + i));
    var want := seq(|cols|, i requires 0 <= i < |cols| => (cols[i], first + i));
    if |cols| == 1 {
      ParseSingleAssignment(cols[0], first);
      assert parts == [Assignment(cols[0], first)];
      assert want == [(cols[0], first)];
    } else {
      var tail := cols[1..];
      var tailParts := seq(|tail|, i requires 0 <= i < |tail| => Assignment(tail[i], first + 1 + i));
      var tailWant := seq(|tail|, i requires 0 <= i < |tail| => (tail[i], first + 1 + i));
      assert parts[1..] == tailParts;
      assert want == [(cols[0], first)] + tailWant;
      assert parts[0] == Assignment(cols[0], first);
      var rest := Join(tailParts, ", ");
      assert Join(parts, ", ") == Assignment(cols[0], first) + (", " + rest);
      ParseJoinedAssignments(tail, first + 1);
      ParseAssignmentThenRest(cols[0], first, rest);
    }
  }

  lemma ParseSingleAssignment(column: string, position: nat)
    requires '"' !in column
    ensures ParseSetClause(Join([Assignment(column, position)], ", ")) == Some([(column, position)])
  {
    ParseAssignmentOf(column, position, []);
    assert Assignment(column, position) + [] == Assignment(column, position);
  }

  lemma ParseAssignmentThenRest(column: string, position: nat, rest: string)
    requires '"' !in column
    requires ParseSetClause(rest).Some?
    ensures ParseSetClause(Assignment(column, position) + (", " + rest))
            == Some([(column, position)] + ParseSetClause(rest).value)
  {
    var sepRest := ", " + rest;
    ParseAssignmentOf(column, position, sepRest);
    assert sepRest[2..] == rest;
  }

  /**
   * Round trip of the `SET` clause: read back, it holds exactly one fragment per key, in key
   * order; the i-th names the key's resolved column and uses placeholder `$(i+1)`, and that
   * placeholder's bound value is the key's value. Holds when no column contains a double quote.
   */
  lemma SetClauseRoundTrip(data: seq<(string, Value)>, jsToSql: map<string, string>)
    requires data != []
    requires forall i :: 0 <= i < |data| ==> '"' !in ColumnName(jsToSql, data[i].0)
    ensures SqlForPartialUpdate(data, jsToSql).Success?
    ensures var clause := SqlForPartialUpdate(data, jsToSql).value;
            var parsed := ParseSetClause(clause.setCols);
            parsed.Some? && |parsed.value| == |data| &&
            forall i :: 0 <= i < |data| ==>
              parsed.value[i].0 == ColumnName(jsToSql, data[i].0) &&
              parsed.value[i].1 == i + 1 &&
              (parsed.value[i].0, clause.values[parsed.value[i].1 - 1]) == Assignments(data, jsToSql)[i]
  {
    var cols := Columns(data, jsToSql);
    var parts := seq(|cols|, i requires 0 <= i < |cols| => Assignment(cols[i], 1 + i));
    var built := seq(|data|, idx requires 0 <= idx < |data| => Assignment(ColumnName(jsToSql, data[idx].0), idx + 1));
    assert built == parts;
    ParseJoinedAssignments(cols, 1);
  }

  /**
   * The placeholders of the `SET` clause are exactly `$1..$n` for n keys, one per bound value.
   * Holds when no column contains a `$`.
   */
  lemma SetClausePlaceholders(data: seq<(string, Value)>, jsToSql: map<string, string>)
    requires data != []
    requires forall i :: 0 <= i < |data| ==> '$' !in ColumnName(jsToSql, data[i].0)
    ensures var clause := SqlForPartialUpdate(data, jsToSql).value;
            Placeholders(clause.setCols) == Numbering(|clause.values|) &&
            clause.setCols != [] && clause.setCols[0] == '"'
  {
    var n := |data|;
    var parts := seq(n, i requires 0 <= i < n => Assignment(ColumnName(jsToSql, data[i].0), i + 1));
    forall i | 0 <= i < n
      ensures StartsNonDigit(parts[i]) && Placeholders(parts[i]) == [1 + i]
    {
      var col := ColumnName(jsToSql, data[i].0);
      var prefix := "\"" + col + "\"=";
      assert parts[i] == prefix + Placeholder(i + 1);
      PlaceholderOf(i + 1);
      PlaceholdersAfter(prefix, Placeholder(i + 1));
    }
    PlaceholdersJoin(parts, ", ");
    JoinStart(parts, ", ");
    PlaceholdersEachConsecutive(parts, 1);
  }

  /** An empty update fails with the same error whatever the map. */
  lemma EmptyUpdateIgnoresMap(jsToSql: map<string, string>, other: map<string, string>)
    ensures SqlForPartialUpdate([], jsToSql) == SqlForPartialUpdate([], other) == Failure(BadRequestError("No data"))
  {
  }

  /** The documented example: a mapped key and an unmapped key. */
  lemma MappedAndUnmappedExample()
    ensures SqlForPartialUpdate([("firstName", Text("John")), ("age", Number(30))], map["firstName" := "first_name"])
            == Success(SetClause("\"first_name\"=$1, \"age\"=$2", [Text("John"), Number(30)]))
  {
    var m := map["firstName" := "first_name"];
    TwoKeys("firstName", Text("John"), "age", Number(30), m);
    assert ColumnName(m, "firstName") == "first_name";
    assert ColumnName(m, "age") == "age";
    DigitsOneTwo();
    assert Assignment("first_name", 1) == "\"first_name\"=$1";
    assert Assignment("age", 2) == "\"age\"=$2";
    assert "\"first_name\"=$1" + ", " + "\"age\"=$2" == "\"first_name\"=$1, \"age\"=$2";
  }

  /** With an empty map every key is its own column. */
  lemma NoMappingExample()
    ensures SqlForPartialUpdate([("firstName", Text("John")), ("age", Number(30))], map[])
            == Success(SetClause("\"firstName\"=$1, \"age\"=$2", [Text("John"), Number(30)]))
  {
    TwoKeys("firstName", Text("John"), "age", Number(30), map[]);
    DigitsOneTwo();
    assert Assignment("firstName", 1) == "\"firstName\"=$1";
    assert Assignment("age", 2) == "\"age\"=$2";
    assert "\"firstName\"=$1" + ", " + "\"age\"=$2" == "\"firstName\"=$1, \"age\"=$2";
  }

  /**
   * A single field: the resolved column goes between the double quotes verbatim, with no
   * escaping, whatever characters it holds.
   */
  lemma SingleFieldVerbatim(key: string, v: Value, jsToSql: map<string, string>)
    ensures SqlForPartialUpdate([(key, v)], jsToSql)
            == Success(SetClause("\"" + ColumnName(jsToSql, key) + "\"=$1", [v]))
  {
    DigitsOneTwo();
    var data := [(key, v)];
    var cols := seq(|data|, idx requires 0 <= idx < |data| => Assignment(ColumnName(jsToSql, data[idx].0), idx + 1));
    assert cols == [Assignment(ColumnName(jsToSql, key), 1)];
    assert Assignment(ColumnName(jsToSql, key), 1) == "\"" + ColumnName(jsToSql, key) + "\"=$1";
    assert seq(|data|, i requires 0 <= i < |data| => data[i].1) == [v];
  }

  lemma TwoKeys(k0: string, v0: Value, k1: string, v1: Value, m: map<string, string>)
    ensures SqlForPartialUpdate([(k0, v0), (k1, v1)], m)
            == Success(SetClause(Assignment(ColumnName(m, k0), 1) + ", " + Assignment(ColumnName(m, k1), 2), [v0, v1]))
  {
    var data := [(k0, v0), (k1, v1)];
    var cols := seq(|data|, idx requires 0 <= idx < |data| => Assignment(ColumnName(m, data[idx].0), idx + 1));
    assert cols == [Assignment(ColumnName(m, k0), 1), Assignment(ColumnName(m, k1), 2)];
    assert Join(cols, ", ") == cols[0] + ", " + Join(cols[1..], ", ");
    assert seq(|data|, i requires 0 <= i < |data| => data[i].1) == [v0, v1];
  }

  /** An empty mapped name falls back to the key, as `||` does for the empty string. */
  /**
   * An entry mapping a key to the empty string is falsy, so `||` falls back to the key: the
   * map behaves as if the entry were absent.
   */
  lemma EmptyMappedNameFallsBack(data: seq<(string, Value)>, jsToSql: map<string, string>, key: string)
    requires key in jsToSql && jsToSql[key] == ""
    ensures ColumnName(jsToSql, key) == key
    ensures SqlForPartialUpdate(data, jsToSql) == SqlForPartialUpdate(data, jsToSql - {key})
  {
    var without := jsToSql - {key};
    if data != [] {
      var n := |data|;
      var cols := seq(n, idx requires 0 <= idx < n => Assignment(ColumnName(jsToSql, data[idx].0), idx + 1));
      var cols' := seq(n, idx requires 0 <= idx < n => Assignment(ColumnName(without, data[idx].0), idx + 1));
      forall i | 0 <= i < n ensures cols[i] == cols'[i] {
        assert ColumnName(jsToSql, data[i].0) == ColumnName(without, data[i].0);
      }
      assert cols == cols';
    }
  }

  lemma DigitsOneTwo()
    ensures NatToDecimal(1) == "1" && NatToDecimal(2) == "2"
  {
  }
}
