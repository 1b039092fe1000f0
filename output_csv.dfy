/** `CsvOutput::output_class_results` (src/output/csv.rs): the results as
    comma-separated lines appended to the output's writer. The header line
    is "Name,Passed,Total," followed by the case names; each student's line
    holds the name, the Passed and Total counts and one symbol per case.
    Fields are not quoted or escaped. */
module OutputCsv {
  import Strings
  import opened Grading
  import opened Report
  import OutputTable

  /** The header line. */
  function HeaderLine(names: seq<string>): string {
    "Name,Passed,Total," + Strings.Join(names, ",") + "\n"
  }

  /** One student's line. */
  function StudentLine(name: string, sr: StudentResults, names: seq<string>): string
    requires Covers(sr, names)
  {
    name + "," + Strings.NatToString(PassedCount(sr)) + "," + Strings.NatToString(|names|) + ","
      + Strings.Join(Cells(sr, names), ",") + "\n"
  }

  /** The lines written: the header, then the students' lines in name order. */
  function CsvLines(results: ClassResults, first: string): (lines: seq<string>)
    requires Renderable(results, first)
  {
    var names := Columns(results, first);
    var students := Students(results);
    AllCovered(results, first);
    [HeaderLine(names)] + seq(|students|, i requires 0 <= i < |students| => StudentLine(students[i], results[students[i]], names))
  }

  /** Text written one piece after another. */
  function Concat(pieces: seq<string>): string
    decreases |pieces|
  {
    if |pieces| == 0 then "" else Concat(pieces[..|pieces| - 1]) + pieces[|pieces| - 1]
  }

  /** Everything one call writes. */
  function CsvText(results: ClassResults, first: string): string
    requires Renderable(results, first)
  {
    Concat(CsvLines(results, first))
  }

  /** The lines, one by one. */
  lemma LineAt(results: ClassResults, first: string, i: nat)
    requires Renderable(results, first)
    requires i < |Students(results)|
    ensures |CsvLines(results, first)| == |Students(results)| + 1
    ensures CsvLines(results, first)[0] == HeaderLine(Columns(results, first))
    ensures Covers(results[Students(results)[i]], Columns(results, first))
    ensures CsvLines(results, first)[i + 1] ==
      StudentLine(Students(results)[i], results[Students(results)[i]], Columns(results, first))
  {
    AllCovered(results, first);
  }

  /** The output: everything written so far is kept in `writer`. */
  class CsvOutput {
    var writer: string

    constructor WithOutput(w: string)
      ensures writer == w
    {
      writer := w;
    }

    /** Writes the header line, then one line per student in name order,
        after what the writer already holds. */
    method OutputClassResults(results: ClassResults, first: string)
      requires Renderable(results, first)
      modifies this
      ensures writer == old(writer) + CsvText(results, first)
    {
      var names := Columns(results, first);
      var start, caseNames := "Name,Passed,Total,", Strings.Join(names, ",") + "\n";
      writer := writer + start;
      writer := writer + caseNames;
      var students := Students(results);
      ghost var lines := CsvLines(results, first);
      assert |lines| == |students| + 1 && lines[0] == HeaderLine(names);
      Strings.Assoc(start, Strings.Join(names, ","), "\n");
      Strings.Assoc(old(writer), start, caseNames);
      assert lines[..1] == [lines[0]];
      for i := 0 to |students|
        invariant writer == old(writer) + Concat(lines[..i + 1])
      {
        LineAt(results, first, i);
        var sr := results[students[i]];
        var fields := students[i] + "," + Strings.NatToString(PassedCount(sr)) + ","
          + Strings.NatToString(|names|) + ",";
        writer := writer + fields;
        var cells := CellsOf(sr, names);
        var symbols := Strings.Join(cells, ",") + "\n";
        writer := writer + symbols;
        AppendLine(lines, i, old(writer), fields, Strings.Join(cells, ","));
      }
      assert lines[..|students| + 1] == lines;
    }
  }

  /** Writing a line's fields, then its cells and newline, extends the text
      by that line. */
  lemma AppendLine(lines: seq<string>, i: nat, base: string, fields: string, joined: string)
    requires i + 1 < |lines|
    requires lines[i + 1] == fields + joined + "\n"
    ensures base + Concat(lines[..i + 1]) + fields + (joined + "\n") == base + Concat(lines[..i + 2])
  {
    Strings.Assoc(fields, joined, "\n");
    Strings.Assoc(base + Concat(lines[..i + 1]), fields, joined + "\n");
    Strings.Assoc(base, Concat(lines[..i + 1]), lines[i + 1]);
    assert lines[..i + 2][..i + 1] == lines[..i + 1];
  }

  /** With at least one case, the header line is the table's header row
      with "Name" in the corner, joined by commas; with none, it keeps the
      comma after "Total". */
  lemma HeaderLineIsJoinedRow(names: seq<string>)
    ensures |names| >= 1 ==> HeaderLine(names) == Strings.Join(["Name", "Passed", "Total"] + names, ",") + "\n"
    ensures |names| == 0 ==> HeaderLine(names) == Strings.Join(["Name", "Passed", "Total"], ",") + ",\n"
  {
    HeaderStart();
    var j := Strings.Join(names, ",");
    if |names| >= 1 {
      Strings.JoinThreeThen("Name", "Passed", "Total", names, ",");
      Regroup("Name,Passed,Total,", "Name", "Passed", "Total", ",", j);
    } else {
      Strings.JoinOfThree("Name", "Passed", "Total", ",");
      RegroupEmpty("Name,Passed,Total,", "Name", "Passed", "Total", ",", j);
      assert ",\n" == "," + "\n";
    }
  }

  // Helpers for HeaderLineIsJoinedRow: regrouping the header's
  // concatenations models nothing and is kept apart so that the proof of
  // that lemma stays small.

  lemma HeaderStart()
    ensures "Name,Passed,Total," == "Name" + "," + "Passed" + "," + "Total" + ","
  {
  }

  lemma Regroup(start: string, a: string, b: string, c: string, sep: string, j: string)
    requires start == a + sep + b + sep + c + sep
    ensures start + j + "\n" == a + sep + b + sep + c + sep + j + "\n"
  {
  }

  lemma RegroupEmpty(start: string, a: string, b: string, c: string, sep: string, j: string)
    requires start == a + sep + b + sep + c + sep && j == ""
    ensures start + j + "\n" == a + sep + b + sep + c + (sep + "\n")
  {
  }

  /** With at least one case, a student's line is the table's row for
      that student, joined by commas. */
  lemma StudentLineIsJoinedRow(name: string, sr: StudentResults, names: seq<string>)
    requires Covers(sr, names) && |names| >= 1
    ensures StudentLine(name, sr, names) == Strings.Join(OutputTable.Row(name, sr, names), ",") + "\n"
  {
    var p, t, cells := Strings.NatToString(PassedCount(sr)), Strings.NatToString(|names|), Cells(sr, names);
    Strings.JoinThreeThen(name, p, t, cells, ",");
  }

  /** Splitting a student's line (without its newline) at the commas gives
      back its name, its counts and its cells, as long as the name has no
      comma. */
  lemma StudentLineReadsBack(name: string, sr: StudentResults, names: seq<string>)
    requires Covers(sr, names) && |names| >= 1
    requires ',' !in name
    ensures var line := StudentLine(name, sr, names);
      |line| >= 1 && line[|line| - 1] == '\n' &&
      Strings.Split(line[..|line| - 1], ',') == OutputTable.Row(name, sr, names)
  {
    var row := OutputTable.Row(name, sr, names);
    var line := StudentLine(name, sr, names);
    StudentLineIsJoinedRow(name, sr, names);
    var joined := Strings.Join(row, ",");
    assert line == joined + "\n";
    assert line[..|line| - 1] == joined;
    forall i | 0 <= i < |row| ensures ',' !in row[i] {
      if i == 1 || i == 2 {
        assert row[i] == Strings.NatToString(if i == 1 then PassedCount(sr) else |names|);
        assert forall j :: 0 <= j < |row[i]| ==> Strings.IsDigit(row[i][j]);
      } else if i >= 3 {
        assert row[i] == Symbol(sr[names[i - 3]]);
        SymbolMeaning(sr[names[i - 3]]);
      }
    }
    Strings.SplitJoin(row, ',');
  }

  /** Splitting the header line (without its newline) at the commas gives
      back "Name", "Passed", "Total" and the case names, as long as no case
      name has a comma. */
  lemma HeaderLineReadsBack(names: seq<string>)
    requires |names| >= 1
    requires forall i :: 0 <= i < |names| ==> ',' !in names[i]
    ensures var line := HeaderLine(names);
      |line| >= 1 && line[|line| - 1] == '\n' &&
      Strings.Split(line[..|line| - 1], ',') == ["Name", "Passed", "Total"] + names
  {
    var row := ["Name", "Passed", "Total"] + names;
    var line := HeaderLine(names);
    HeaderLineIsJoinedRow(names);
    var joined := Strings.Join(row, ",");
    assert line == joined + "\n";
    assert line[..|line| - 1] == joined;
    forall i | 0 <= i < |row| ensures ',' !in row[i] {
      if i >= 3 {
        assert row[i] == names[i - 3];
      }
    }
    Strings.SplitJoin(row, ',');
  }

  /** When every student has the same cases, the text does not depend on
      which student the map yields first. */
  lemma FirstDoesNotMatter(results: ClassResults, s: string, t: string)
    requires Complete(results) && s in results && t in results
    ensures Renderable(results, s) && Renderable(results, t)
    ensures CsvText(results, s) == CsvText(results, t)
  {
    ColumnsOfAnyStudent(results, s, t);
  }

  // Helpers for ExampleLines and CsvExample: they model nothing and are kept
  // apart so that each example's proof stays small.

  /** A student line of the three-case example, spelled out. */
  lemma LineOf(name: string, sr: StudentResults, names: seq<string>, passed: string, total: string, cells: seq<string>)
    requires Covers(sr, names) && |cells| == 3
    requires Strings.NatToString(PassedCount(sr)) == passed && Strings.NatToString(|names|) == total
    requires Cells(sr, names) == cells
    ensures StudentLine(name, sr, names) ==
      name + "," + passed + "," + total + "," + (cells[0] + "," + cells[1] + "," + cells[2]) + "\n"
  {
    assert cells == [cells[0], cells[1], cells[2]];
    Strings.JoinOfThree(cells[0], cells[1], cells[2], ",");
  }

  /** Four lines written one after another. */
  lemma ConcatFour(lines: seq<string>)
    requires |lines| == 4
    ensures Concat(lines) == lines[0] + lines[1] + lines[2] + lines[3]
  {
    assert Concat(lines[..1]) == lines[0] by {
      assert lines[..1][..0] == [];
      assert "" + lines[0] == lines[0];
    }
    assert lines[..2][..1] == lines[..1];
    assert lines[..3][..2] == lines[..2];
    assert Concat(lines[..2]) == lines[0] + lines[1];
    assert Concat(lines[..3]) == lines[0] + lines[1] + lines[2];
  }

  /** The example's literal concatenations. */
  lemma ExampleHeaderText()
    ensures "Name,Passed,Total," + ("Case 1" + "," + "Case 2" + "," + "Case 3") + "\n" == "Name,Passed,Total,Case 1,Case 2,Case 3\n"
  {
  }

  lemma ExampleLineTexts()
    ensures "Student A" + "," + "3" + "," + "3" + "," + (" " + "," + " " + "," + " ") + "\n" == "Student A,3,3, , , \n"
    ensures "Student B" + "," + "1" + "," + "3" + "," + (" " + "," + "F" + "," + "T") + "\n" == "Student B,1,3, ,F,T\n"
    ensures "Student C" + "," + "0" + "," + "3" + "," + ("C" + "," + "C" + "," + "C") + "\n" == "Student C,0,3,C,C,C\n"
  {
  }

  lemma ExampleTwoLines()
    ensures "Name,Passed,Total,Case 1,Case 2,Case 3\n" + "Student A,3,3, , , \n" ==
      "Name,Passed,Total,Case 1,Case 2,Case 3\nStudent A,3,3, , , \n"
  {
  }

  lemma ExampleThreeLines()
    ensures "Name,Passed,Total,Case 1,Case 2,Case 3\nStudent A,3,3, , , \n" + "Student B,1,3, ,F,T\n" ==
      "Name,Passed,Total,Case 1,Case 2,Case 3\nStudent A,3,3, , , \nStudent B,1,3, ,F,T\n"
  {
  }

  lemma ExampleFourLines()
    ensures "Name,Passed,Total,Case 1,Case 2,Case 3\nStudent A,3,3, , , \nStudent B,1,3, ,F,T\n" + "Student C,0,3,C,C,C\n" ==
      "Name,Passed,Total,Case 1,Case 2,Case 3\nStudent A,3,3, , , \nStudent B,1,3, ,F,T\nStudent C,0,3,C,C,C\n"
  {
  }

  /** The example's lines, whichever student the map yields first. */
  lemma ExampleLines(first: string)
    requires first in Example()
    ensures Renderable(Example(), first)
    ensures CsvLines(Example(), first) == [
      "Name,Passed,Total,Case 1,Case 2,Case 3\n",
      "Student A,3,3, , , \n",
      "Student B,1,3, ,F,T\n",
      "Student C,0,3,C,C,C\n"]
  {
    ExampleColumns(first);
    ExampleStudents();
    ExamplePassed();
    ExampleCells();
    var results := Example();
    var names := ["Case 1", "Case 2", "Case 3"];
    var lines := CsvLines(results, first);
    var a, b, c := results["Student A"], results["Student B"], results["Student C"];
    OutputTable.Digits();
    LineAt(results, first, 0);
    LineAt(results, first, 1);
    LineAt(results, first, 2);
    Strings.JoinOfThree("Case 1", "Case 2", "Case 3", ",");
    ExampleHeaderText();
    LineOf("Student A", a, names, "3", "3", [" ", " ", " "]);
    LineOf("Student B", b, names, "1", "3", [" ", "F", "T"]);
    LineOf("Student C", c, names, "0", "3", ["C", "C", "C"]);
    ExampleLineTexts();
    OutputTable.FourRows(lines, "Name,Passed,Total,Case 1,Case 2,Case 3\n",
      "Student A,3,3, , , \n", "Student B,1,3, ,F,T\n", "Student C,0,3,C,C,C\n");
  }

  /** The three-student example writes exactly this text, whichever student
      the map yields first. */
  lemma CsvExample(first: string)
    requires first in Example()
    ensures Renderable(Example(), first)
    ensures CsvText(Example(), first) ==
      "Name,Passed,Total,Case 1,Case 2,Case 3\nStudent A,3,3, , , \nStudent B,1,3, ,F,T\nStudent C,0,3,C,C,C\n"
  {
    ExampleLines(first);
    ConcatFour(CsvLines(Example(), first));
    ExampleTwoLines();
    ExampleThreeLines();
    ExampleFourLines();
  }

  /** The test of src/output/csv.rs: a new output over an empty writer
      holds exactly the example's text after one call. */
  method PrintOutputExample(first: string) returns (output: string)
    requires first in Example()
    ensures output ==
      "Name,Passed,Total,Case 1,Case 2,Case 3\nStudent A,3,3, , , \nStudent B,1,3, ,F,T\nStudent C,0,3,C,C,C\n"
  {
    CsvExample(first);
    var w := new CsvOutput.WithOutput("");
    w.OutputClassResults(Example(), first);
    output := w.writer;
  }
}
