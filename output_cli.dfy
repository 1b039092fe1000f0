/** The rows of the table that `Print::output_class_results`
    (src/output/cli.rs) prints: a header row of case names, then one row
    per student with the name and one symbol per case. It is the table of
    src/output/table.rs without the Passed and Total columns. */
module OutputCli {
  import opened Grading
  import opened Report
  import OutputTable

  function Header(names: seq<string>): seq<string> {
    [""] + names
  }

  function Row(name: string, sr: StudentResults, names: seq<string>): seq<string>
    requires Covers(sr, names)
  {
    [name] + Cells(sr, names)
  }

  /** The printed rows: the header, then the students' rows in name order. */
  function CliRows(results: ClassResults, first: string): (rows: seq<seq<string>>)
    requires Renderable(results, first)
  {
    var names := Columns(results, first);
    var students := Students(results);
    AllCovered(results, first);
    [Header(names)] + seq(|students|, i requires 0 <= i < |students| => Row(students[i], results[students[i]], names))
  }

  /** The rows of the printed table, one by one. */
  lemma RowAt(results: ClassResults, first: string, i: nat)
    requires Renderable(results, first)
    requires i < |Students(results)|
    ensures |CliRows(results, first)| == |Students(results)| + 1
    ensures CliRows(results, first)[0] == Header(Columns(results, first))
    ensures Covers(results[Students(results)[i]], Columns(results, first))
    ensures CliRows(results, first)[i + 1] ==
      Row(Students(results)[i], results[Students(results)[i]], Columns(results, first))
  {
    AllCovered(results, first);
  }

  /** The header row: an empty corner cell, then the case names. */
  method HeaderRow(names: seq<string>) returns (caseRow: seq<string>)
    ensures caseRow == Header(names)
  {
    caseRow := [];
    caseRow := caseRow + [""];
    for i := 0 to |names|
      invariant caseRow == [""] + names[..i]
    {
      caseRow := caseRow + [names[i]];
    }
    assert names[..|names|] == names;
  }

  /** A student's row: the symbol cells, with the name inserted in front. */
  method StudentRow(name: string, sr: StudentResults, names: seq<string>) returns (row: seq<string>)
    requires Covers(sr, names)
    ensures row == Row(name, sr, names)
  {
    row := CellsOf(sr, names);
    row := [name] + row;
  }

  /** `output_class_results`: the header row, then one row per student in
      name order. */
  method OutputClassResults(results: ClassResults, first: string) returns (rows: seq<seq<string>>)
    requires Renderable(results, first)
    ensures rows == CliRows(results, first)
  {
    var names := Columns(results, first);
    var caseRow := HeaderRow(names);
    rows := [caseRow];
    var students := Students(results);
    ghost var table := CliRows(results, first);
    assert |table| == |students| + 1 && table[0] == caseRow;
    for i := 0 to |students|
      invariant |rows| == i + 1
      invariant forall j :: 0 <= j <= i ==> rows[j] == table[j]
    {
      RowAt(results, first, i);
      var row := StudentRow(students[i], results[students[i]], names);
      rows := rows + [row];
    }
  }

  /** Row for row, the printed table is the table of src/output/table.rs
      with its Passed and Total columns removed. */
  lemma TableWithoutCounts(results: ClassResults, first: string, i: nat)
    requires Renderable(results, first)
    requires i < |CliRows(results, first)|
    ensures |CliRows(results, first)| == |OutputTable.TableRows(results, first)|
    ensures |OutputTable.TableRows(results, first)[i]| >= 3
    ensures CliRows(results, first)[i] ==
      [OutputTable.TableRows(results, first)[i][0]] + OutputTable.TableRows(results, first)[i][3..]
  {
    var names := Columns(results, first);
    var k := if i == 0 then 0 else i - 1;
    StudentsSpec(results);
    RowAt(results, first, k);
    OutputTable.RowAt(results, first, k);
    if i == 0 {
      assert OutputTable.Header(names)[3..] == names;
    } else {
      var s := Students(results)[k];
      var row := OutputTable.Row(s, results[s], names);
      assert OutputTable.TableRows(results, first)[i] == row;
      assert row[3..] == Cells(results[s], names);
    }
  }

  // Helpers for CliExample: they model nothing and are kept apart so that
  // the example's proof stays small.

  lemma HeaderOf(names: seq<string>)
    requires |names| == 3
    ensures Header(names) == ["", names[0], names[1], names[2]]
  {
  }

  lemma RowOf(name: string, sr: StudentResults, names: seq<string>, cells: seq<string>)
    requires Covers(sr, names) && |cells| == 3
    requires Cells(sr, names) == cells
    ensures Row(name, sr, names) == [name, cells[0], cells[1], cells[2]]
  {
  }

  /** The three-student example: its printed rows hold these cells,
      whichever student supplies the columns. */
  lemma CliExample(first: string)
    requires first in Example()
    ensures Renderable(Example(), first)
    ensures CliRows(Example(), first) == [
      ["", "Case 1", "Case 2", "Case 3"],
      ["Student A", " ", " ", " "],
      ["Student B", " ", "F", "T"],
      ["Student C", "C", "C", "C"]]
  {
    ExampleColumns(first);
    ExampleStudents();
    ExampleCells();
    var results := Example();
    var names := ["Case 1", "Case 2", "Case 3"];
    var rows := CliRows(results, first);
    var a, b, c := results["Student A"], results["Student B"], results["Student C"];
    RowAt(results, first, 0);
    RowAt(results, first, 1);
    RowAt(results, first, 2);
    HeaderOf(names);
    RowOf("Student A", a, names, [" ", " ", " "]);
    RowOf("Student B", b, names, [" ", "F", "T"]);
    RowOf("Student C", c, names, ["C", "C", "C"]);
    OutputTable.FourRows(rows, ["", "Case 1", "Case 2", "Case 3"],
      ["Student A", " ", " ", " "], ["Student B", " ", "F", "T"], ["Student C", "C", "C", "C"]);
  }
}
