/**
 * The `StudentRecord` dataclass and the part of
 * `StudentDataLoader.read_csv_file` that turns the rows produced by the CSV
 * reader into records (poc/before/load_students.py).
 */
module StudentRecords {
  import opened Wrappers

  /** One CSV row as the dictionary reader yields it: column header to cell text. */
  type Row = map<string, string>

  /** A student as read from the CSV file; the four optional names may be absent. */
  datatype StudentRecord = StudentRecord(
    uniqueId: string,
    birthDate: string,
    firstName: string,
    lastName: string,
    middleName: Option<string>,
    title: Option<string>,
    preferredFirstName: Option<string>,
    preferredLastName: Option<string>,
    enrollmentDate: string,
    enrollmentGradeLevel: string,
    fullTime: string)

  /** Indexing a row by a column it lacks raises `KeyError`, which aborts the read. */
  datatype CsvError = MissingColumn(column: string)

  /** The columns a row is indexed by, in the order the record's fields are evaluated. */
  const Columns: seq<string> := [
    "uniqueId", "birthDate", "firstName", "lastName",
    "middleName", "title", "preferredFirstName", "preferredLastName",
    "enrollmentDate", "enrollmentGradeLevel", "fullTime"]

  /** `row` has every column a record is read from. */
  predicate HasColumns(row: Row)
  {
    && "uniqueId" in row && "birthDate" in row && "firstName" in row && "lastName" in row
    && "middleName" in row && "title" in row && "preferredFirstName" in row && "preferredLastName" in row
    && "enrollmentDate" in row && "enrollmentGradeLevel" in row && "fullTime" in row
  }

  /** `HasColumns` checks exactly the columns listed in `Columns`. */
  lemma HasColumnsListed(row: Row)
    ensures HasColumns(row) <==> forall i :: 0 <= i < |Columns| ==> Columns[i] in row
  {
    assert Columns[0] == "uniqueId" && Columns[1] == "birthDate" && Columns[2] == "firstName";
    assert Columns[3] == "lastName" && Columns[4] == "middleName" && Columns[5] == "title";
    assert Columns[6] == "preferredFirstName" && Columns[7] == "preferredLastName";
    assert Columns[8] == "enrollmentDate" && Columns[9] == "enrollmentGradeLevel" && Columns[10] == "fullTime";
  }

  /** The first of `columns` that `row` lacks, if any. */
  function FirstMissing(columns: seq<string>, row: Row): (r: Option<string>)
    ensures r.None? <==> forall i :: 0 <= i < |columns| ==> columns[i] in row
    ensures r.Some? ==> exists i :: 0 <= i < |columns| && columns[i] == r.value && r.value !in row
                                    && forall j :: 0 <= j < i ==> columns[j] in row
  {
    if columns == [] then None
    else if columns[0] !in row then Some(columns[0])
    else
      var r := FirstMissing(columns[1..], row);
      if r.Some? then
        ghost var k :| 0 <= k < |columns[1..]| && columns[1..][k] == r.value && r.value !in row
                       && forall j :: 0 <= j < k ==> columns[1..][j] in row;
        assert columns[k + 1] == r.value;
        r
      else r
  }

  /** An optional column: the empty cell is read as `None`. */
  function OptionalCell(cell: string): (r: Option<string>)
    ensures r.None? <==> cell == ""
    ensures r.Some? ==> r.value == cell
  {
    if cell != "" then Some(cell) else None
  }

  /** The record built from one row, or the first column the row lacks. */
  function DecodeRow(row: Row): (r: Result<StudentRecord, CsvError>)
    ensures r.Success? <==> HasColumns(row)
    ensures r.Failure? ==> r.error.column in Columns && r.error.column !in row
    ensures r.Failure? ==> FirstMissing(Columns, row) == Some(r.error.column)
  {
    HasColumnsListed(row);
    match FirstMissing(Columns, row)
    case Some(c) => Failure(MissingColumn(c))
    case None =>
      Success(StudentRecord(
        row["uniqueId"], row["birthDate"], row["firstName"], row["lastName"],
        OptionalCell(row["middleName"]), OptionalCell(row["title"]),
        OptionalCell(row["preferredFirstName"]), OptionalCell(row["preferredLastName"]),
        row["enrollmentDate"], row["enrollmentGradeLevel"], row["fullTime"]))
  }

  /**
   * A decoded row copies the seven required columns verbatim; each optional
   * column is `None` exactly when its cell is empty and otherwise holds the cell.
   */
  lemma DecodeRowFields(row: Row)
    requires HasColumns(row)
    ensures DecodeRow(row).Success?
    ensures var r := DecodeRow(row);
      && r.value.uniqueId == row["uniqueId"]
      && r.value.birthDate == row["birthDate"]
      && r.value.firstName == row["firstName"]
      && r.value.lastName == row["lastName"]
      && r.value.enrollmentDate == row["enrollmentDate"]
      && r.value.enrollmentGradeLevel == row["enrollmentGradeLevel"]
      && r.value.fullTime == row["fullTime"]
    ensures var r := DecodeRow(row);
      && (r.value.middleName.None? <==> row["middleName"] == "")
      && (r.value.title.None? <==> row["title"] == "")
      && (r.value.preferredFirstName.None? <==> row["preferredFirstName"] == "")
      && (r.value.preferredLastName.None? <==> row["preferredLastName"] == "")
    ensures var r := DecodeRow(row);
      && (r.value.middleName.Some? ==> r.value.middleName.value == row["middleName"])
      && (r.value.title.Some? ==> r.value.title.value == row["title"])
      && (r.value.preferredFirstName.Some? ==> r.value.preferredFirstName.value == row["preferredFirstName"])
      && (r.value.preferredLastName.Some? ==> r.value.preferredLastName.value == row["preferredLastName"])
  {
  }

  /** Every row decoded in file order, or the error of the first row that fails. */
  function DecodeRows(rows: seq<Row>): Result<seq<StudentRecord>, CsvError>
  {
    if rows == [] then Success([])
    else match DecodeRow(rows[0])
      case Failure(e) => Failure(e)
      case Success(s) => Prepend([s], DecodeRows(rows[1..]))
  }

  /** `prefix` in front of a successful list; a failure passes through. */
  function Prepend(prefix: seq<StudentRecord>, r: Result<seq<StudentRecord>, CsvError>): Result<seq<StudentRecord>, CsvError>
  {
    match r
    case Success(rest) => Success(prefix + rest)
    case Failure(e) => Failure(e)
  }

  /** Reading succeeds iff every row decodes; then record i is row i decoded. */
  lemma {:induction false} DecodeRowsSuccess(rows: seq<Row>)
    ensures DecodeRows(rows).Success? <==> forall i :: 0 <= i < |rows| ==> DecodeRow(rows[i]).Success?
    ensures DecodeRows(rows).Success? ==>
      && |DecodeRows(rows).value| == |rows|
      && forall i :: 0 <= i < |rows| ==> DecodeRows(rows).value[i] == DecodeRow(rows[i]).value
  {
    if rows != [] {
      DecodeRowsSuccess(rows[1..]);
      assert forall i :: 1 <= i < |rows| ==> rows[i] == rows[1..][i - 1];
    }
  }

  /** The first `n` rows all decode. */
  predicate DecodesUpTo(rows: seq<Row>, n: nat)
    requires n <= |rows|
  {
    forall j :: 0 <= j < n ==> DecodeRow(rows[j]).Success?
  }

  /** A failed read reports the error of the first row that fails to decode. */
  lemma {:induction false} DecodeRowsFailure(rows: seq<Row>)
    requires DecodeRows(rows).Failure?
    ensures exists i :: 0 <= i < |rows| && DecodeRow(rows[i]) == Failure(DecodeRows(rows).error)
                        && DecodesUpTo(rows, i)
  {
    if DecodeRow(rows[0]).Success? {
      var tail := rows[1..];
      assert DecodeRows(rows) == Prepend([DecodeRow(rows[0]).value], DecodeRows(tail));
      DecodeRowsFailure(tail);
      var k :| 0 <= k < |tail| && DecodeRow(tail[k]) == Failure(DecodeRows(tail).error) && DecodesUpTo(tail, k);
      assert rows[k + 1] == tail[k];
      forall j | 0 <= j < k + 1 ensures DecodeRow(rows[j]).Success? {
        if j > 0 { assert rows[j] == tail[j - 1]; }
      }
      assert DecodesUpTo(rows, k + 1);
    } else {
      assert DecodesUpTo(rows, 0);
    }
  }

  /**
   * The loop of `read_csv_file`: append each decoded row to the list; the
   * first row that lacks a column aborts the read.
   */
  method ReadRows(rows: seq<Row>) returns (r: Result<seq<StudentRecord>, CsvError>)
    ensures r == DecodeRows(rows)
  {
    var students: seq<StudentRecord> := [];
    var i := 0;
    assert rows[0..] == rows;
    if DecodeRows(rows).Success? {
      assert [] + DecodeRows(rows).value == DecodeRows(rows).value;
    }
    while i < |rows|
      invariant 0 <= i <= |rows|
      invariant DecodeRows(rows) == Prepend(students, DecodeRows(rows[i..]))
    {
      assert rows[i..][0] == rows[i] && rows[i..][1..] == rows[i + 1..];
      match DecodeRow(rows[i])
      case Failure(e) =>
        return Failure(e);
      case Success(s) =>
        if DecodeRows(rows[i + 1..]).Success? {
          ghost var rest := DecodeRows(rows[i + 1..]).value;
          assert students + ([s] + rest) == (students + [s]) + rest;
        }
        students := students + [s];
        i := i + 1;
    }
    assert rows[i..] == [];
    assert students + [] == students;
    return Success(students);
  }
}
