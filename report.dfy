/** What the three renderers of src/output share: the case names taken
    from the "first" student, the students in sorted order, the symbol of
    each result and the Passed count. */
module Report {
  import opened Wrappers
  import Strings
  import Process
  import opened Grading

  /** The cell of one result. */
  function Symbol(r: CaseResult): string {
    match r
    case Ok(Success) => " "
    case Ok(Failure) => "F"
    case Ok(FailWithMessage(_)) => "F"
    case Ok(CompileError) => "C"
    case Ok(Timeout) => "T"
    case Err(_) => "!"
  }

  /** Each kind of result has its own one-character cell, except that both
      kinds of failure show as "F"; a blank cell means a pass. */
  lemma SymbolMeaning(r: CaseResult)
    ensures |Symbol(r)| == 1 && ',' !in Symbol(r) && '\n' !in Symbol(r)
    ensures Symbol(r) == " " <==> r == Ok(Process.Success)
    ensures Symbol(r) == "F" <==> r.Ok? && (r.value.Failure? || r.value.FailWithMessage?)
    ensures Symbol(r) == "C" <==> r == Ok(Process.CompileError)
    ensures Symbol(r) == "T" <==> r == Ok(Process.Timeout)
    ensures Symbol(r) == "!" <==> r.Err?
  {
  }

  /** The cases a student passed. */
  function Passed(sr: StudentResults): set<string> {
    set k | k in sr && sr[k] == Ok(Process.Success)
  }

  /** The Passed count: how many of the student's results are Success. */
  function PassedCount(sr: StudentResults): nat {
    |Passed(sr)|
  }

  /** A renderer does not panic: there is a student whose case names it
      takes (the one map iteration yields first), and every student has a
      result for each of them. */
  predicate Renderable(results: ClassResults, first: string) {
    first in results && forall s :: s in results ==> results[first].Keys <= results[s].Keys
  }

  /** Every student has the same cases. */
  predicate Complete(results: ClassResults) {
    forall s, t :: s in results && t in results ==> results[s].Keys == results[t].Keys
  }

  /** The column names: the sorted case names of the first student. */
  function Columns(results: ClassResults, first: string): (r: seq<string>)
    requires first in results
    ensures |r| == |results[first]|
  {
    Strings.SortedKeys(results[first].Keys)
  }

  /** The columns are the first student's case names, each once, in order. */
  lemma ColumnsSpec(results: ClassResults, first: string)
    requires first in results
    ensures Strings.Increasing(Columns(results, first))
    ensures forall k :: k in Columns(results, first) <==> k in results[first]
  {
    Strings.SortedKeysSpec(results[first].Keys);
  }

  /** The row order: the students sorted by name. */
  function Students(results: ClassResults): (r: seq<string>)
    ensures |r| == |results|
    ensures forall i :: 0 <= i < |r| ==> r[i] in results
  {
    Strings.SortedKeysSpec(results.Keys);
    Strings.SortedKeys(results.Keys)
  }

  /** Every student has one row, and the rows are in order of name. */
  lemma StudentsSpec(results: ClassResults)
    ensures Strings.Increasing(Students(results))
    ensures forall s :: s in Students(results) <==> s in results
  {
    Strings.SortedKeysSpec(results.Keys);
  }

  /** The student has a result for every column. */
  predicate Covers(sr: StudentResults, names: seq<string>) {
    forall i :: 0 <= i < |names| ==> names[i] in sr
  }

  /** In a renderable result set every student has every column. */
  lemma AllCovered(results: ClassResults, first: string)
    requires Renderable(results, first)
    ensures forall s :: s in results ==> Covers(results[s], Columns(results, first))
  {
    ColumnsSpec(results, first);
  }

  /** The cells of one student's row, in column order. */
  function Cells(sr: StudentResults, names: seq<string>): (r: seq<string>)
    requires Covers(sr, names)
    ensures |r| == |names|
    ensures forall i :: 0 <= i < |names| ==> r[i] == Symbol(sr[names[i]])
  {
    seq(|names|, i requires 0 <= i < |names| => Symbol(sr[names[i]]))
  }

  /** The cells of a row, one per column, as the renderers map each case
      name to its symbol. */
  method CellsOf(sr: StudentResults, names: seq<string>) returns (cells: seq<string>)
    requires Covers(sr, names)
    ensures cells == Cells(sr, names)
  {
    cells := [];
    for i := 0 to |names|
      invariant cells == Cells(sr, names)[..i]
    {
      cells := cells + [Symbol(sr[names[i]])];
    }
    assert Cells(sr, names)[..|names|] == Cells(sr, names);
  }

  /** When every student has the same cases, any student gives the same
      columns. */
  lemma ColumnsOfAnyStudent(results: ClassResults, s: string, t: string)
    requires Complete(results) && s in results && t in results
    ensures Columns(results, s) == Columns(results, t)
  {
    assert results[s].Keys == results[t].Keys;
  }

  lemma {:induction false} SubsetCardinality(a: set<string>, b: set<string>)
    requires a <= b
    ensures |a| <= |b|
    decreases |b|
  {
    if a != {} {
      var x :| x in a;
      SubsetCardinality(a - {x}, b - {x});
    }
  }

  /** A student with exactly the listed cases has passed at most as many
      as there are columns. */
  lemma PassedAtMostTotal(results: ClassResults, first: string, s: string)
    requires first in results && s in results && results[s].Keys == results[first].Keys
    ensures PassedCount(results[s]) <= |Columns(results, first)|
  {
    SubsetCardinality(Passed(results[s]), results[s].Keys);
  }

  /** The number of blank cells in a row. */
  function Blanks(cells: seq<string>): nat
    decreases |cells|
  {
    if |cells| == 0 then 0
    else Blanks(cells[..|cells| - 1]) + (if cells[|cells| - 1] == " " then 1 else 0)
  }

  /** The listed cases a student passed. */
  function PassedAmong(sr: StudentResults, names: seq<string>): (r: set<string>)
    requires forall i :: 0 <= i < |names| ==> names[i] in sr
    ensures forall k :: k in r <==> k in names && sr[k] == Ok(Process.Success)
    decreases |names|
  {
    if |names| == 0 then {}
    else
      var n := |names| - 1;
      PassedAmong(sr, names[..n]) + (if sr[names[n]] == Ok(Process.Success) then {names[n]} else {})
  }

  lemma {:induction false} BlanksCountPassed(sr: StudentResults, names: seq<string>)
    requires forall i :: 0 <= i < |names| ==> names[i] in sr
    requires forall i, j :: 0 <= i < j < |names| ==> names[i] != names[j]
    ensures Blanks(Cells(sr, names)) == |PassedAmong(sr, names)|
    decreases |names|
  {
    if |names| > 0 {
      var n := |names| - 1;
      var init := names[..n];
      BlanksCountPassed(sr, init);
      SymbolMeaning(sr[names[n]]);
      assert Cells(sr, names)[..n] == Cells(sr, init);
      assert names[n] !in PassedAmong(sr, init);
    }
  }

  /** The Passed count equals the number of blank cells of the row when the
      columns are exactly the student's cases. */
  lemma PassedIsBlankCells(results: ClassResults, first: string, s: string)
    requires first in results && s in results && results[s].Keys == results[first].Keys
    ensures Covers(results[s], Columns(results, first))
    ensures Blanks(Cells(results[s], Columns(results, first))) == PassedCount(results[s])
  {
    var names := Columns(results, first);
    ColumnsSpec(results, first);
    forall i, j | 0 <= i < j < |names| ensures names[i] != names[j] {
      Strings.SortedKeysDistinct(results[first].Keys, i, j);
    }
    BlanksCountPassed(results[s], names);
    assert PassedAmong(results[s], names) == Passed(results[s]);
  }

  // The results used by the renderers' examples.

  function Example(): ClassResults {
    map[
      "Student A" := map["Case 1" := Ok(Process.Success), "Case 2" := Ok(Process.Success), "Case 3" := Ok(Process.Success)],
      "Student B" := map["Case 1" := Ok(Process.Success), "Case 2" := Ok(Process.Failure), "Case 3" := Ok(Process.Timeout)],
      "Student C" := map["Case 1" := Ok(Process.CompileError), "Case 2" := Ok(Process.CompileError), "Case 3" := Ok(Process.CompileError)]]
  }

  /** Every student of the example has the cases "Case 1" to "Case 3". */
  lemma ExampleKeys(s: string)
    requires s in Example()
    ensures Example()[s].Keys == {"Case 1", "Case 2", "Case 3"}
  {
    ExampleNames();
    if s == "Student A" {
    } else if s == "Student B" {
    } else {
      assert s == "Student C";
    }
  }

  lemma ExampleNames()
    ensures Example().Keys == {"Student A", "Student B", "Student C"}
  {
  }

  lemma ExampleOrder()
    ensures Strings.Below("Case 1", "Case 2") && Strings.Below("Case 2", "Case 3")
    ensures Strings.Below("Student A", "Student B") && Strings.Below("Student B", "Student C")
  {
  }

  lemma ExampleComplete()
    ensures Complete(Example())
  {
    forall s | s in Example() ensures Example()[s].Keys == {"Case 1", "Case 2", "Case 3"} {
      ExampleKeys(s);
    }
  }

  lemma ExampleColumns(first: string)
    requires first in Example()
    ensures Renderable(Example(), first)
    ensures Columns(Example(), first) == ["Case 1", "Case 2", "Case 3"]
  {
    forall s | s in Example() ensures Example()[s].Keys == {"Case 1", "Case 2", "Case 3"} {
      ExampleKeys(s);
    }
    ExampleOrder();
    Strings.SortedThree(Example()[first].Keys, "Case 1", "Case 2", "Case 3");
  }

  lemma ExampleStudents()
    ensures Students(Example()) == ["Student A", "Student B", "Student C"]
  {
    ExampleNames();
    ExampleOrder();
    Strings.SortedThree(Example().Keys, "Student A", "Student B", "Student C");
  }

  lemma ExamplePassed()
    ensures PassedCount(Example()["Student A"]) == 3
    ensures PassedCount(Example()["Student B"]) == 1
    ensures PassedCount(Example()["Student C"]) == 0
  {
    assert Passed(Example()["Student A"]) == {"Case 1", "Case 2", "Case 3"};
    assert Passed(Example()["Student B"]) == {"Case 1"};
    assert Passed(Example()["Student C"]) == {};
  }

  lemma ExampleCells()
    ensures Covers(Example()["Student A"], ["Case 1", "Case 2", "Case 3"])
    ensures Covers(Example()["Student B"], ["Case 1", "Case 2", "Case 3"])
    ensures Covers(Example()["Student C"], ["Case 1", "Case 2", "Case 3"])
    ensures Cells(Example()["Student A"], ["Case 1", "Case 2", "Case 3"]) == [" ", " ", " "]
    ensures Cells(Example()["Student B"], ["Case 1", "Case 2", "Case 3"]) == [" ", "F", "T"]
    ensures Cells(Example()["Student C"], ["Case 1", "Case 2", "Case 3"]) == ["C", "C", "C"]
  {
  }
}
