/** The rows of the table that `Table::output_class_results` (src/output/table.rs)
    prints: a header row, then one row per student with the name, the
    Passed and Total counts and one symbol per case. The border and
    padding that the table library adds are not modelled. */
module OutputTable {
  import Strings
  import opened Grading
  import opened Report

  function Header(names: seq<string>): seq<string> {
    ["", "Passed", "Total"] + names
  }

  function Row(name: string, sr: StudentResults, names: seq<string>): seq<string>
    requires Covers(sr, names)
  {
    [name, Strings.NatToString(PassedCount(sr)), Strings.NatToString(|names|)] + Cells(sr, names)
  }

  /** The table: the header, then the students' rows in name order. */
  function TableRows(results: ClassResults, first: string): (rows: seq<seq<string>>)
    requires Renderable(results, first)
  {
    var names := Columns(results, first);
    var students := Students(results);
    AllCovered(results, first);
    [Header(names)] + seq(|students|, i requires 0 <= i < |students| => Row(students[i], results[students[i]], names))
  }

  /** The rows of the table, one by one. */
  lemma RowAt(results: ClassResults, first: string, i: nat)
    requires Renderable(results, first)
    requires i < |Students(results)|
    ensures |TableRows(results, first)| == |Students(results)| + 1
    ensures TableRows(results, first)[0] == Header(Columns(results, first))
    ensures Covers(results[Students(results)[i]], Columns(results, first))
    ensures TableRows(results, first)[i + 1] ==
      Row(Students(results)[i], results[Students(results)[i]], Columns(results, first))
  {
    AllCovered(results, first);
  }

  /** The header row, built cell by cell. */
  method HeaderRow(names: seq<string>) returns (caseRow: seq<string>)
    ensures caseRow == Header(names)
  {
    caseRow := [];
    caseRow := caseRow + [""];
    caseRow := caseRow + ["Passed"];
    caseRow := caseRow + ["Total"];
    for i := 0 to |names|
      invariant caseRow == ["", "Passed", "Total"] + names[..i]
    {
      caseRow := caseRow + [names[i]];
    }
    assert names[..|names|] == names;
  }

  /** A student's row: the symbol cells, then the name, Passed and Total
      inserted in front. */
  method StudentRow(name: string, sr: StudentResults, names: seq<string>) returns (row: seq<string>)
    requires Covers(sr, names)
    ensures row == Row(name, sr, names)
  {
    row := CellsOf(sr, names);
    row := [name] + row;
    row := row[..1] + [Strings.NatToString(PassedCount(sr))] + row[1..];
    row := row[..2] + [Strings.NatToString(|names|)] + row[2..];
  }

  /** `output_class_results`: the header row, then one row per student in
      name order. */
  method OutputClassResults(results: ClassResults, first: string) returns (rows: seq<seq<string>>)
    requires Renderable(results, first)
    ensures rows == TableRows(results, first)
  {
    var names := Columns(results, first);
    var caseRow := HeaderRow(names);
    rows := [caseRow];
    var students := Students(results);
    ghost var table := TableRows(results, first);
    assert |table| == |students| + 1 && table[0] == caseRow;
    for i := 0 to |students|
      invariant |rows| == i + 1
      invariant forall j :: 0 <= j <= i ==> rows[j] == table[j]
    {
      RowAt(results, first, i);
      var row := StudentRow(students[i], results[students[i]], names);
      rows := rows + [row];
    }
  }

  /** There is a header and one row per student, and every row has the
      three leading columns and one per case. */
  lemma TableShape(results: ClassResults, first: string)
    requires Renderable(results, first)
    ensures |TableRows(results, first)| == |results| + 1
    ensures forall i :: 0 <= i < |TableRows(results, first)| ==>
      |TableRows(results, first)[i]| == 3 + |results[first]|
  {
    var rows := TableRows(results, first);
    forall i | 1 <= i < |rows| ensures |rows[i]| == 3 + |results[first]| {
      var k := i - 1;
      RowAt(results, first, k);
      assert rows[k + 1] == Row(Students(results)[k], results[Students(results)[k]], Columns(results, first));
    }
  }

  /** The name column of row `i` is the student `i - 1` in name order. */
  lemma NameAt(results: ClassResults, first: string, i: nat)
    requires Renderable(results, first)
    requires 1 <= i < |TableRows(results, first)|
    ensures TableRows(results, first)[i][0] == Students(results)[i - 1]
  {
    var k := i - 1;
    RowAt(results, first, k);
    assert TableRows(results, first)[k + 1] ==
      Row(Students(results)[k], results[Students(results)[k]], Columns(results, first));
  }

  /** The name column lists every student once, in increasing order. */
  lemma RowsInNameOrder(results: ClassResults, first: string)
    requires Renderable(results, first)
    ensures forall i, j :: 1 <= i < j < |TableRows(results, first)| ==>
      Strings.Below(TableRows(results, first)[i][0], TableRows(results, first)[j][0])
    ensures forall s :: s in results <==>
      exists i :: 1 <= i < |TableRows(results, first)| && TableRows(results, first)[i][0] == s
  {
    var rows := TableRows(results, first);
    var students := Students(results);
    StudentsSpec(results);
    forall i, j | 1 <= i < j < |rows| ensures Strings.Below(rows[i][0], rows[j][0]) {
      NameAt(results, first, i);
      NameAt(results, first, j);
    }
    forall s | s in results ensures exists i :: 1 <= i < |rows| && rows[i][0] == s {
      var k :| 0 <= k < |students| && students[k] == s;
      NameAt(results, first, k + 1);
      assert rows[k + 1][0] == s;
    }
    forall i | 1 <= i < |rows| ensures rows[i][0] in results {
      NameAt(results, first, i);
    }
  }

  /** The Passed column of a row reads back as the number of its blank
      cells, which is at most its Total column, which reads back as the
      given number of cases. */
  predicate CountsAgree(row: seq<string>, total: nat) {
    |row| >= 3 && Strings.IsNumeral(row[1]) && Strings.IsNumeral(row[2]) &&
    Strings.ParseNat(row[1]) == Blanks(row[3..]) <= Strings.ParseNat(row[2]) == total
  }

  /** The numbers of one student's row agree with its cells when the
      student has exactly the listed cases. */
  lemma RowCounts(results: ClassResults, first: string, s: string)
    requires first in results && s in results && results[s].Keys == results[first].Keys
    ensures Covers(results[s], Columns(results, first))
    ensures CountsAgree(Row(s, results[s], Columns(results, first)), |Columns(results, first)|)
  {
    var names := Columns(results, first);
    PassedIsBlankCells(results, first, s);
    PassedAtMostTotal(results, first, s);
    var row := Row(s, results[s], names);
    assert row[3..] == Cells(results[s], names);
    Strings.ParseNatToString(PassedCount(results[s]));
    Strings.ParseNatToString(|names|);
  }

  /** In a complete result set the numbers of every student's row agree
      with its cells and with the number of case columns in the header. */
  lemma CountsAgreeWithCells(results: ClassResults, first: string, i: nat)
    requires Renderable(results, first) && Complete(results)
    requires 1 <= i < |TableRows(results, first)|
    ensures |TableRows(results, first)[0]| >= 3
    ensures CountsAgree(TableRows(results, first)[i], |TableRows(results, first)[0]| - 3)
  {
    var k := i - 1;
    RowAt(results, first, k);
    var s := Students(results)[k];
    assert results[s].Keys == results[first].Keys;
    RowCounts(results, first, s);
    assert TableRows(results, first)[i] == Row(s, results[s], Columns(results, first));
  }

  // Helpers for TableExample (and the examples of the other two renderers):
  // they model nothing and are kept apart so that each example's proof
  // stays small.

  /** The numerals the examples print. */
  lemma Digits()
    ensures Strings.NatToString(0) == "0" && Strings.NatToString(1) == "1" && Strings.NatToString(3) == "3"
  {
  }

  lemma HeaderOf(names: seq<string>)
    requires |names| == 3
    ensures Header(names) == ["", "Passed", "Total", names[0], names[1], names[2]]
  {
  }

  lemma RowOf(name: string, sr: StudentResults, names: seq<string>, passed: string, total: string, cells: seq<string>)
    requires Covers(sr, names) && |cells| == 3
    requires Strings.NatToString(PassedCount(sr)) == passed && Strings.NatToString(|names|) == total
    requires Cells(sr, names) == cells
    ensures Row(name, sr, names) == [name, passed, total, cells[0], cells[1], cells[2]]
  {
  }

  /** A four-element sequence is its elements, listed. */
  lemma FourRows<T>(rows: seq<T>, r0: T, r1: T, r2: T, r3: T)
    requires |rows| == 4
    requires rows[0] == r0
    requires rows[1] == r1
    requires rows[2] == r2
    requires rows[3] == r3
    ensures rows == [r0, r1, r2, r3]
  {
  }

  /** The three-student example: its rows hold these cells, whichever
      student supplies the columns. */
  lemma TableExample(first: string)
    requires first in Example()
    ensures Renderable(Example(), first)
    ensures TableRows(Example(), first) == [
      ["", "Passed", "Total", "Case 1", "Case 2", "Case 3"],
      ["Student A", "3", "3", " ", " ", " "],
      ["Student B", "1", "3", " ", "F", "T"],
      ["Student C", "0", "3", "C", "C", "C"]]
  {
    ExampleColumns(first);
    ExampleStudents();
    ExamplePassed();
    ExampleCells();
    var results := Example();
    var names := ["Case 1", "Case 2", "Case 3"];
    var rows := TableRows(results, first);
    var a, b, c := results["Student A"], results["Student B"], results["Student C"];
    Digits();
    RowAt(results, first, 0);
    RowAt(results, first, 1);
    RowAt(results, first, 2);
    HeaderOf(names);
    RowOf("Student A", a, names, "3", "3", [" ", " ", " "]);
    RowOf("Student B", b, names, "1", "3", [" ", "F", "T"]);
    RowOf("Student C", c, names, "0", "3", ["C", "C", "C"]);
    FourRows(rows, ["", "Passed", "Total", "Case 1", "Case 2", "Case 3"],
      ["Student A", "3", "3", " ", " ", " "], ["Student B", "1", "3", " ", "F", "T"], ["Student C", "0", "3", "C", "C", "C"]);
  }
}
