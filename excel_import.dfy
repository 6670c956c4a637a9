/**
  The spreadsheet import of backend/mastery/data_import/import_from_excel.py:
  a sheet's rows turned into records keyed by its header row, and the
  email and role a member row gives.

  A cell is empty (None), text, or a number; a record maps the kept column
  names to their cells (the order of a record's keys is not modelled).
 */
module ExcelImport {
  import opened Text
  import opened ImportHelpers

  datatype Cell = NoValue | TextCell(text: string) | Number(n: int)

  type Record = map<string, Cell>

  /** A header cell names a kept column when it is text listed in `fieldNames`. */
  predicate Kept(name: Cell, fieldNames: seq<string>) {
    name.TextCell? && name.text in fieldNames
  }

  /** A cell as stored: None and "" become None. */
  function Normalised(c: Cell): (r: Cell)
    ensures r == NoValue <==> c == NoValue || c == TextCell("")
    ensures r != NoValue ==> r == c
  {
    if c == NoValue || c == TextCell("") then NoValue else c
  }

  /**
    The record of one row: the cells of kept columns, normalised, a later
    column of the same name overwriting an earlier one; a row longer than
    the header raises IndexError at its first extra cell.
   */
  function RecordOf(header: seq<Cell>, row: seq<Cell>, fieldNames: seq<string>): Result<Record, string>
    decreases |row|
  {
    if row == [] then Ok(map[])
    else
      var init := RecordOf(header, row[..|row| - 1], fieldNames);
      var index := |row| - 1;
      if init.Err? then init
      else if index >= |header| then Err(IndexOutOfRange)
      else if Kept(header[index], fieldNames) then Ok(init.value[header[index].text := Normalised(row[index])])
      else init
  }

  /** The records of the rows, in order, without the empty ones; the first error raised, if any. */
  function Records(header: seq<Cell>, rows: seq<seq<Cell>>, fieldNames: seq<string>): Result<seq<Record>, string>
    decreases |rows|
  {
    if rows == [] then Ok([])
    else
      match Records(header, rows[..|rows| - 1], fieldNames)
      case Err(e) => Err(e)
      case Ok(records) =>
        match RecordOf(header, rows[|rows| - 1], fieldNames)
        case Err(e) => Err(e)
        case Ok(record) => Ok(if record != map[] then records + [record] else records)
  }

  /** objects_from_sheet: the first row is the header; an empty sheet raises IndexError. */
  function ObjectsOf(sheet: seq<seq<Cell>>, fieldNames: seq<string>): Result<seq<Record>, string> {
    if sheet == [] then Err(IndexOutOfRange) else Records(sheet[0], sheet[1..], fieldNames)
  }

  /** objects_from_sheet, as its nested loops. */
  method ObjectsFromSheet(sheet: seq<seq<Cell>>, fieldNames: seq<string>) returns (r: Result<seq<Record>, string>)
    ensures r == ObjectsOf(sheet, fieldNames)
  {
    if sheet == [] {
      return Err(IndexOutOfRange);
    }
    var header := sheet[0];
    var rows := sheet[1..];
    var objects: seq<Record> := [];
    for i := 0 to |rows|
      invariant Records(header, rows[..i], fieldNames) == Ok(objects)
    {
      assert rows[..i + 1][..i] == rows[..i];
      var record := RowRecord(header, rows[i], fieldNames);
      if record.Err? {
        RecordsErrSticks(header, rows, i + 1, fieldNames);
        return Err(record.error);
      }
      if record.value != map[] {
        objects := objects + [record.value];
      }
    }
    assert rows[..|rows|] == rows;
    r := Ok(objects);
  }

  /** The inner loop over the cells of one row. */
  method RowRecord(header: seq<Cell>, row: seq<Cell>, fieldNames: seq<string>) returns (r: Result<Record, string>)
    ensures r == RecordOf(header, row, fieldNames)
  {
    var record: Record := map[];
    for index := 0 to |row|
      invariant RecordOf(header, row[..index], fieldNames) == Ok(record)
    {
      assert row[..index + 1][..index] == row[..index];
      if index >= |header| {
        RecordOfFails(header, row, fieldNames);
        return Err(IndexOutOfRange);
      }
      if Kept(header[index], fieldNames) {
        record := record[header[index].text := Normalised(row[index])];
      }
    }
    assert row[..|row|] == row;
    r := Ok(record);
  }

  // ---------------------------------------------------------------- properties

  /** Once a row raises, the rows after it are not read. */
  lemma {:induction false} RecordsErrSticks(header: seq<Cell>, rows: seq<seq<Cell>>, n: nat, fieldNames: seq<string>)
    requires n <= |rows| && Records(header, rows[..n], fieldNames).Err?
    ensures Records(header, rows, fieldNames) == Records(header, rows[..n], fieldNames)
    decreases |rows| - n
  {
    if n < |rows| {
      assert rows[..|rows| - 1][..n] == rows[..n];
      RecordsErrSticks(header, rows[..|rows| - 1], n, fieldNames);
    } else {
      assert rows[..n] == rows;
    }
  }

  /** A record holds only kept column names, and no cell that is "". */
  predicate WellFormed(record: Record, header: seq<Cell>, fieldNames: seq<string>) {
    forall name :: name in record ==>
      name in fieldNames && TextCell(name) in header && record[name] != TextCell("")
  }

  lemma {:induction false} RecordOfWellFormed(header: seq<Cell>, row: seq<Cell>, fieldNames: seq<string>)
    ensures RecordOf(header, row, fieldNames).Ok? ==> WellFormed(RecordOf(header, row, fieldNames).value, header, fieldNames)
    decreases |row|
  {
    if row != [] {
      RecordOfWellFormed(header, row[..|row| - 1], fieldNames);
    }
  }

  /** A row raises IndexError exactly when it has more cells than the header. */
  lemma {:induction false} RecordOfFails(header: seq<Cell>, row: seq<Cell>, fieldNames: seq<string>)
    ensures RecordOf(header, row, fieldNames).Err? <==> |row| > |header|
    ensures RecordOf(header, row, fieldNames).Err? ==> RecordOf(header, row, fieldNames).error == IndexOutOfRange
    decreases |row|
  {
    if row != [] {
      RecordOfFails(header, row[..|row| - 1], fieldNames);
    }
  }

  /** Every cell of a kept column is in the record, normalised, unless a later column of the same name overrides it. */
  lemma {:induction false} RecordOfKeepsCells(header: seq<Cell>, row: seq<Cell>, fieldNames: seq<string>, i: nat)
    requires i < |row| <= |header| && Kept(header[i], fieldNames)
    requires forall j :: i < j < |row| ==> header[j] != header[i]
    ensures RecordOf(header, row, fieldNames).Ok?
    ensures header[i].text in RecordOf(header, row, fieldNames).value
    ensures RecordOf(header, row, fieldNames).value[header[i].text] == Normalised(row[i])
    decreases |row|
  {
    RecordOfFails(header, row, fieldNames);
    if i < |row| - 1 {
      RecordOfKeepsCells(header, row[..|row| - 1], fieldNames, i);
    } else {
      RecordOfFails(header, row[..|row| - 1], fieldNames);
    }
  }

  /**
    The sheet's records, when it does not raise: at most one per row after
    the header, none empty, each holding only kept names and no "" cell.
    It raises exactly when the sheet is empty or a row is longer than the
    header.
   */
  lemma {:induction false} RecordsShape(header: seq<Cell>, rows: seq<seq<Cell>>, fieldNames: seq<string>)
    ensures Records(header, rows, fieldNames).Err? <==> exists k :: 0 <= k < |rows| && |rows[k]| > |header|
    ensures Records(header, rows, fieldNames).Ok? ==>
      var records := Records(header, rows, fieldNames).value;
      |records| <= |rows| &&
      forall k :: 0 <= k < |records| ==> records[k] != map[] && WellFormed(records[k], header, fieldNames)
    decreases |rows|
  {
    if rows != [] {
      var init := rows[..|rows| - 1];
      RecordsShape(header, init, fieldNames);
      RecordOfFails(header, rows[|rows| - 1], fieldNames);
      RecordOfWellFormed(header, rows[|rows| - 1], fieldNames);
      assert forall k :: 0 <= k < |init| ==> init[k] == rows[k];
    }
  }

  lemma ObjectsOfShape(sheet: seq<seq<Cell>>, fieldNames: seq<string>)
    ensures ObjectsOf(sheet, fieldNames).Err? <==>
      (sheet == [] || exists k :: 1 <= k < |sheet| && |sheet[k]| > |sheet[0]|)
    ensures ObjectsOf(sheet, fieldNames).Ok? ==>
      var records := ObjectsOf(sheet, fieldNames).value;
      |records| <= |sheet| - 1 &&
      forall k :: 0 <= k < |records| ==> records[k] != map[] && WellFormed(records[k], sheet[0], fieldNames)
  {
    if sheet != [] {
      RecordsShape(sheet[0], sheet[1..], fieldNames);
      assert forall k :: 1 <= k < |sheet| ==> sheet[k] == sheet[1..][k - 1];
    }
  }

  // ---------------------------------------------------------------- member rows

  datatype MemberRole = TeacherRole | StudentRole

  /** The role of a member row: teacher exactly when its "role" cell is "teacher". */
  function RoleOfCell(role: Cell): (r: MemberRole)
    ensures r == TeacherRole <==> role == TextCell("teacher")
  {
    if role == TextCell("teacher") then TeacherRole else StudentRole
  }

  /**
    The email of a member row: its "user_feide_id" split at ":", the
    second field, with "@feide." replaced by "@"; a missing column raises
    KeyError, a cell that is not text AttributeError, an id without ":"
    IndexError.
   */
  function MemberEmail(record: Record): (r: Result<string, string>)
    ensures r.Ok? <==> "user_feide_id" in record && record["user_feide_id"].TextCell? && ':' in record["user_feide_id"].text
  {
    if "user_feide_id" !in record then Err(KeyError("user_feide_id"))
    else
      match record["user_feide_id"]
      case NoValue => Err("'NoneType' object has no attribute 'split'")
      case Number(_) => Err("'int' object has no attribute 'split'")
      case TextCell(id) =>
        if ':' !in id then
          SplitNoSep(id, ':');
          Err(IndexOutOfRange)
        else
          SplitHasSep(id, ':');
          Ok(EmailOf(Split(id, ':')[1]))
  }

  /**
    A spreadsheet member and a Feide member with the same id as first
    "userid_sec" entry get the same email.
   */
  lemma MemberEmailAgreesWithFeide(id: string, name: string, info: MembershipInfo)
    requires ':' in id
    ensures var member := FeideMember(Some([id]), Some(name), Some(info));
      CreateUserItem(member).Ok? && MemberEmail(map["user_feide_id" := TextCell(id)]) == Ok(CreateUserItem(member).value.email)
  {
  }
}
