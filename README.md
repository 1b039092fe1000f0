# stipulate — a verified model of its grading core

stipulate grades a class of programming submissions. A TOML configuration
names a backend (Java or Python), a fixture directory and a target
directory. Every `<case>.in` / `<case>.out` pair in the fixture directory
is one test case. Every sub-directory of the target directory is one
student. For each student the backend's setup step runs first (for Java,
compiling the `.java` files with `javac`). Then every test case is run:
the student's program gets the case's input on stdin, and its stdout is
compared with the expected output, within an optional timeout. The
results (`Success`, `Failure`, `Timeout`, `CompileError`, or an error of
the runner) are shown as a plain table, a table with Passed/Total counts,
or CSV.

The model is split into one Dafny module per part of the program:

- `Conf`, `JavaConf`, `PythonConf`, `ConfFields` (`src/conf/*.rs`):
  - reading a configuration from a TOML value tree;
  - the backend operations: command, arguments, environment, setup.
- `Process` (`src/test/process.rs`): one test case run against a child
  process.
  - The child is a class whose state (`Running`, `Killed`, `Reaped`)
    and received input change step by step.
  - What the operating system answers is a `ChildScript` value.
  - The runner method is proved equal to the specification function
    `Outcome`, and the source's `echo`/`sleep` tests are lemmas about it.
- `Grading` (`src/test/mod.rs`): finding the cases, reading the fixtures
  and running every student.
  - Case names come from `(.*)[.][^.]+`, applied exactly, including that
    `.` does not match a newline.
  - The file system is a value.
  - The per-case runner is a function parameter.
- `Report`, `OutputTable`, `OutputCli`, `OutputCsv` (`src/output/*.rs`):
  - the rows each renderer builds;
  - the CSV text the CSV renderer appends to its writer, a string field
    of the `CsvOutput` class.
- Shared value types:
  - `Wrappers`: Option, Result;
  - `Strings`: join, split, decimal text, string order, sorted listing;
  - `Utf8`: `as_bytes` and `from_utf8`;
  - `Time`: `Duration`;
  - `Toml`: the value tree.

Things that Rust leaves open are parameters:

- **Which student comes "first".** `results.iter().next()` gives an
  arbitrary student, so the renderers take that student's name,
  `first`. The renderers require that every student has that student's
  cases; the source panics otherwise. When all students have the same
  cases, the output does not depend on `first`.
- **The default interpreter.** The Python default depends on the
  compile target. It is the parameter `TargetFamily`.

Some behaviours of the code that are easy to miss:

- The fixture listing takes a case name from every directory entry,
  sub-directories included, not only from regular files.
- The runner in `src/test/process.rs` takes no environment, although its
  caller in `src/test/mod.rs` passes one. The environment is carried in
  the runner's `Invocation` but is not merged into any process.
- The CSV header is `Name,Passed,Total,` followed by the joined case
  names, so with no cases the header line ends in a comma
  (`OutputCsv.HeaderLineIsJoinedRow` states both forms).
- The Passed count is taken over all of a student's results, not only
  over the columns. It is at most Total, and equals the number of blank
  cells, when the student has exactly the first student's cases.
- A case without a time limit whose child never stops leaves the program
  waiting forever. `Process.Outcome` is therefore defined only for runs
  that return (`Process.Terminates`), and the process runner only for an
  operating system on which every run returns (`Grading.AlwaysReturns`).

## Model

| member | source | states |
|---|---|---|
| Conf.OnlyKey | src/conf/mod.rs:61-63 | the key found in a one-entry table is its only key |
| Conf.FromTomlValuesDispatch | src/conf/mod.rs:58-86 | not a table gives the "wasn't a table" error; a table without exactly one section gives the "exactly one section" error; a lone `java` or `python` section gives that backend's configuration, or its error unchanged; any other lone section gives "Unrecognized config type: " followed by its name |
| Conf.FromTomlValuesOk | src/conf/mod.rs:58-75 | every configuration loaded comes from a one-section table and is exactly what the backend reads from that section |
| Conf.BackendCommandLines | src/conf/python.rs:149-173 | definition: through the dispatch, both backends' command lines. Java: command `java`, args are the main class then the configured args, env is `CLASSPATH` = the student dir. Python: the configured interpreter, args are `<dir>/<file>` then the configured args, no env, and setup always succeeds |
| Conf.JavaDefaults | src/conf/mod.rs:160-171 | the source's first Java test document loads with name, tests dir, command `java`, args `["Main"]`, a 5-second timeout and the target dir |
| Conf.JavaTimeoutOne | src/conf/mod.rs:172-179 | the second Java document loads with name "Test B", tests dir, command `java`, args `["MainB"]`, a one-second timeout (`timeout = 1`) and target dir "testb/sub" |
| Conf.JavaTimeoutFalse | src/conf/mod.rs:180-187 | the third Java document loads with name "Test C", tests dir, command `java`, args `["OtherClass"]`, no timeout (`timeout = false`) and target dir "testc/sub" |
| Conf.PythonVersionGiven | src/conf/mod.rs:188-198 | a Python document with `version = "python3"` loads with name, tests dir, command `python3`, args `["home/source.py"]` for dir "home", the 5-second default and target dir "testa/pysub" |
| Conf.JavaNoArgs | src/conf/mod.rs:203-209 | a Java section without `args` gives args `["Main"]` for dir "test/dir" |
| Conf.JavaArgs | src/conf/mod.rs:210-218 | a Java section with `args = ["Hello,", "world!"]` gives args `["Main", "Hello,", "world!"]` |
| Conf.PythonNoArgs | src/conf/mod.rs:219-225 | a Python section without `args` gives args `["dir/source.py"]` for dir "dir" |
| Conf.PythonArgs | src/conf/mod.rs:226-234 | a Python section with no `version` runs `python3` on Unix with args `["dir/source.py", "Hello,", "world!"]` and the 5-second default |
| ConfFields.AsU64 | src/conf/java.rs:72 | `seconds as u64` keeps non-negative values and wraps negative ones by 2^64 |
| ConfFields.ArgText | src/conf/java.rs:87-98 | an element of `args` is rejected exactly when it is an array or a table |
| ConfFields.ArgListSpec | src/conf/java.rs:83-103 | the array is accepted exactly when no element is nested; the error is then "Args may not contain nested structures"; on success each element's text is kept, in order |
| ConfFields.ArgsOfStringArray | src/conf/java.rs:83-99 | a list of strings written as a TOML array is read back unchanged |
| ConfFields.TimeoutRoundTrip | src/conf/java.rs:71-82 | a whole-second timeout written as an integer, or no timeout written as `false`, is read back unchanged |
| JavaConf.FromTomlFirstError | src/conf/java.rs:41-121 | a section is accepted exactly when all six field checks pass; if it is rejected, the error is that of the first failing check in the order name, tests_dir, main_class, timeout, args, target_dir |
| JavaConf.FromTomlFields | src/conf/java.rs:44-120 | every field of a loaded configuration is the value its key holds, or the timeout and args that key's check produced |
| JavaConf.FromTomlToToml | src/conf/java.rs:25-40 | any configuration whose timeout TOML can express is read back unchanged from its section |
| JavaConf.CommandLine | src/conf/java.rs:137-176 | definition: command is `java` for every dir; args do not depend on the dir and are the main class then the configured args; the environment is just `CLASSPATH` = the student dir |
| JavaConf.CollectPaths | src/conf/java.rs:149-157 | the glob entries are collected exactly when every entry is readable, and the paths then keep their order |
| JavaConf.DoSetupSpec | src/conf/java.rs:147-166 | setup succeeds exactly when the `<dir>/*.java` glob is a valid pattern, every match is readable, and `javac` run on the matched paths in order exits successfully (an empty match list is not a failure by itself) |
| PythonConf.FromTomlFirstError | src/conf/python.rs:45-133 | a section is accepted exactly when all seven checks pass; if it is rejected, the error is that of the first failing check in the order name, tests_dir, version, timeout, file, args, target_dir |
| PythonConf.FromTomlFields | src/conf/python.rs:48-132 | every field of a loaded configuration is what its key holds; an absent `version` gives the platform default (`python` on Windows, `python3` on Unix) |
| PythonConf.FromTomlToToml | src/conf/python.rs:29-44 | any configuration whose timeout TOML can express is read back unchanged from its section, on either platform |
| Utf8.DecodeEncode | src/test/process.rs:12 | `from_utf8` of the UTF-8 bytes of a text gives the text back |
| Utf8.EncodeDecode | src/test/process.rs:12 | a successful `from_utf8` loses nothing: encoding its text gives the bytes back |
| Process.Child.Spawned | src/test/process.rs:55-59 | a spawned child is running and has received nothing |
| Process.Child.WriteAll | src/test/process.rs:60-64 | the write succeeds exactly when the child accepts input, and only then does the received input grow by the bytes |
| Process.Child.WaitTimeout | src/test/process.rs:66-67 | the wait reports an exit exactly when the child stops by itself within the delay, and only then is the child reaped |
| Process.Child.Kill | src/test/process.rs:69 | a killed child is in the Killed state |
| Process.Child.Wait | src/test/process.rs:70-77 | the child is reaped when the wait works (the reaping wait after a kill and the plain wait succeed or fail independently), and its state is unchanged otherwise |
| Process.StreamBytesFailsAfter | src/test/process.rs:11 | one failing read fails the whole `read_to_end` |
| Process.ReadFromStream | src/test/process.rs:9-13 | the result is the stream's text, or ReadFailed if any read fails, or InvalidUtf8 if the bytes are not UTF-8 |
| Process.TestOutputAgainstStrings | src/test/process.rs:48-89 | the answer equals `Outcome` (spawn, stdin, write, wait or wait-with-timeout, stdout, read, compare, in that order); the child exists exactly when the spawn worked; it has received exactly the input's bytes; every answer (as opposed to an error) other than Timeout leaves the child reaped; after a Timeout the child is reaped when the reaping wait after the kill works, and is left killed when it does not, the answer being Timeout either way |
| Process.SuccessIffSameBytes | src/test/process.rs:79-88 | a run that returns passes exactly when every step succeeds in time and stdout is, byte for byte, the UTF-8 encoding of the expected output |
| Process.FailureIffDifferentText | src/test/process.rs:79-88 | a run that returns fails exactly when every step succeeds in time, stdout is valid UTF-8, and its text differs from the expected output |
| Process.TimeoutIffLate | src/test/process.rs:65-78 | a timeout is answered exactly when the input was delivered, the wait worked, and a limit was given that the child outlived; with no limit there is never a timeout |
| Process.NeverGraded | src/test/process.rs:85-88 | the runner answers only Success, Failure or Timeout |
| Process.EchoOutcome | src/test/process.rs:96-107 | `echo` passes exactly when its line (the words joined by spaces, then a newline) is the expected output |
| Process.SleepOutcome | src/test/process.rs:133-143 | a child still running when the limit runs out times out |
| Process.EchoHelloPasses | src/test/process.rs:97-101 | `echo "Hello, world"` passes against "Hello, world\n", with no limit or a one-second one |
| Process.EchoGoodbyeFails | src/test/process.rs:102-106 | `echo "Goodbye, world"` fails against "Hello, world\n" |
| Process.SleepTimesOut | src/test/process.rs:133-143 | `sleep 10` under a 100-nanosecond limit times out |
| Grading.ReadDir | src/test/mod.rs:88 | definition: listing succeeds exactly for a listable directory, with its entries; otherwise the error is ReadDirFailed for that path |
| Grading.ReadFile | src/test/mod.rs:113 | definition: reading succeeds exactly for an openable, readable file, and gives its text; otherwise the error is OpenFailed for a missing path and ReadFailed for an unreadable file |
| Grading.JoinPath | src/test/mod.rs:151 | definition: `Path::join` adds a `/` unless the directory is empty or already ends with one |
| Grading.LastSplit | src/test/mod.rs:84 | the greedy `(.*)` scan keeps an earlier best once it has one, and anything new it returns is a dot-then-non-dot position at or after the start |
| Grading.LastSplitIsLast | src/test/mod.rs:84 | a new result of the scan is a split point on the starting line (no newline before it) with no split point after it on that line; when nothing new is returned, that line has no split point |
| Grading.CaseNameOfLastSplit | src/test/mod.rs:84-103 | for a one-line name, the case name is the text before the last dot that a non-dot follows |
| Grading.CaseNameTrailingDots | src/test/mod.rs:84 | "a.b.." gives "a": trailing dots do not form an extension |
| Grading.CaptureFrom | src/test/mod.rs:97-103 | a capture exists only if some dot-then-non-dot split point exists |
| Grading.CaseNameIffSplit | src/test/mod.rs:84-103 | a file name gives a case exactly when it has a dot followed by a non-dot |
| Grading.CaseNameOfFileName | src/test/mod.rs:84 | for a one-line name ending in `.ext` (with no dot in ext), the case name is everything before that last dot |
| Grading.CaseNameExamples | src/test/mod.rs:84 | "a.in" gives "a", "x.tar.gz" gives "x.tar", and ".in" gives "" |
| Grading.CaseNameNoExtension | src/test/mod.rs:84 | "README" and "a.." give no case: neither has a dot followed by a non-dot |
| Grading.Unique | src/test/mod.rs:107 | `unique()` keeps exactly the same names, each once |
| Grading.UniqueOfDistinct | src/test/mod.rs:107 | a list without repeats is unchanged, so `unique` is idempotent |
| Grading.OneCasePerPair | src/test/mod.rs:88-108 | "x.in" and "x.out" give the single case "x" |
| Grading.CaseNames | src/test/mod.rs:88-106 | a name is listed exactly when a readable entry's file name captures it |
| Grading.CasePaths | src/test/mod.rs:113 | definition: case i's path is `<dir>/<case><ext>` |
| Grading.ReadAll | src/test/mod.rs:109-116 | collecting succeeds exactly when every file reads, keeping the texts in order; otherwise the error is that of the first file that fails |
| Grading.ZipCases | src/test/mod.rs:125-133 | the zipped map has exactly the case names as keys |
| Grading.ZipCasesAt | src/test/mod.rs:125-133 | for distinct names, each case holds its own input and output |
| Grading.CaseList | src/test/mod.rs:88-108 | the case list names exactly the cases the listing gives, each once |
| Grading.ReadAllCases | src/test/mod.rs:109-124 | reading every case's file with one extension succeeds exactly when every case's file with that extension reads |
| Grading.LoadFixturesOk | src/test/mod.rs:86-124 | loading the fixtures succeeds exactly when the directory lists and both files of every case it names read; anything else aborts |
| Grading.LoadFixturesContents | src/test/mod.rs:109-133 | the fixtures have exactly the listed cases as keys, each with the texts of its `.in` and `.out` files |
| Grading.TestStudentAgainstTestCase | src/test/mod.rs:48-71 | there is one result per case, under the case's name |
| Grading.FailuresAreGlobal | src/test/mod.rs:80-134 | the run fails exactly when the fixtures fail to load or the target dir does not list, with that error; no student run can make it fail |
| Grading.Completeness | src/test/mod.rs:134-178 | one result map per sub-directory of the target dir, each with exactly the fixtures' case names; each result is CompileError if setup failed, and otherwise the runner's answer for that case's input, expected output and the student's command line |
| Grading.SetupFailureRunsNothing | src/test/mod.rs:159-167 | when setup fails, the student's results are all CompileError and do not depend on the runner |
| Grading.CompileErrorIffSetupFailed | src/test/mod.rs:159-176 | when the runner never answers CompileError, a CompileError result means exactly that setup failed |
| Grading.ProcessCompileErrors | src/test/mod.rs:168-176 | with the process runner on an operating system where every run returns, CompileError appears exactly for the students whose setup failed |
| Report.SymbolMeaning | src/output/csv.rs:43-52 | every symbol is one character (no comma, no newline). Blank means Success; "F" means Failure or FailWithMessage; "C" CompileError; "T" Timeout; "!" an error |
| Report.Columns | src/output/csv.rs:30-38 | there is one column per case of the first student |
| Report.ColumnsSpec | src/output/csv.rs:30-38 | the columns are the first student's case names, in strictly increasing order |
| Report.Students | src/output/csv.rs:41 | there is one row per student, and each row is a student |
| Report.StudentsSpec | src/output/csv.rs:41 | the rows are every student in strictly increasing name order |
| Report.AllCovered | src/output/csv.rs:44 | when renderable, no lookup of a column in a student's results fails |
| Report.Cells | src/output/csv.rs:43-52 | definition: one cell per column, holding the symbol of that case's result |
| Report.CellsOf | src/output/table.rs:45-64 | the loop builds exactly the row's cells |
| Report.ColumnsOfAnyStudent | src/output/csv.rs:30-38 | when every student has the same cases, the columns do not depend on which student comes first |
| Report.PassedAtMostTotal | src/output/csv.rs:42 | the Passed count is at most the number of columns when the student has exactly the listed cases |
| Report.BlanksCountPassed | src/output/csv.rs:42-52 | the blank cells of distinct columns count the listed cases passed |
| Report.PassedIsBlankCells | src/output/table.rs:66 | the Passed count equals the row's number of blank cells when the student has exactly the first student's cases |
| Report.ExampleColumns | src/output/csv.rs:65-83 | the example results are renderable from any student, with columns "Case 1", "Case 2", "Case 3" |
| Report.ExampleStudents | src/output/csv.rs:65-83 | the example's rows are Students A, B, C in that order |
| Report.ExamplePassed | src/output/csv.rs:65-83 | the example's Passed counts are 3, 1 and 0 |
| Report.ExampleCells | src/output/csv.rs:65-83 | the example's cells are `   `, ` FT` and `CCC` |
| OutputTable.RowAt | src/output/table.rs:43-68 | the table is the header row, then row i+1 for the i-th student in name order |
| OutputTable.HeaderRow | src/output/table.rs:36-42 | the header row is "", "Passed", "Total", then the case names |
| OutputTable.StudentRow | src/output/table.rs:45-67 | a student's row is the name, the Passed count, the Total, then the cells |
| OutputTable.OutputClassResults | src/output/table.rs:23-72 | the rows built are exactly the table |
| OutputTable.TableShape | src/output/table.rs:36-68 | there is one row more than there are students, and every row has 3 + (number of cases) cells |
| OutputTable.NameAt | src/output/table.rs:44-65 | row i's name cell is the (i-1)-th student in name order |
| OutputTable.RowsInNameOrder | src/output/table.rs:44 | the name column lists every student exactly once, in strictly increasing order |
| OutputTable.RowCounts | src/output/table.rs:66-67 | for a student with exactly the listed cases, Passed reads back as the row's number of blank cells, which is at most Total, which reads back as the number of columns |
| OutputTable.CountsAgreeWithCells | src/output/table.rs:66-67 | in a complete result set, every student row's counts agree with its cells and with the header's number of case columns |
| OutputTable.TableExample | src/output/table.rs:101-107 | the cells of the source's table test, with whichever student comes first |
| OutputCli.RowAt | src/output/cli.rs:41-64 | the printed table is the header row, then row i+1 for the i-th student in name order |
| OutputCli.HeaderRow | src/output/cli.rs:36-41 | the header row is "" then the case names |
| OutputCli.StudentRow | src/output/cli.rs:43-63 | a student's row is the name, then the cells |
| OutputCli.OutputClassResults | src/output/cli.rs:23-68 | the rows built are exactly the printed table |
| OutputCli.TableWithoutCounts | src/output/cli.rs:35-65 | row by row, the printed table is the counted table without its Passed and Total columns |
| OutputCli.CliExample | src/output/cli.rs:97-103 | the cells of the source's print test, with whichever student comes first |
| OutputCsv.LineAt | src/output/csv.rs:39-54 | the text is the header line, then line i+1 for the i-th student in name order |
| OutputCsv.CsvOutput.WithOutput | src/output/csv.rs:17-19 | a new output holds the given writer |
| OutputCsv.CsvOutput.OutputClassResults | src/output/csv.rs:26-56 | the writer ends as its old contents followed by the header line and every student's line in name order, and nothing else |
| OutputCsv.HeaderLineIsJoinedRow | src/output/csv.rs:39-40 | with cases, the header line is "Name", "Passed", "Total" and the case names joined by commas; with none, it ends in a trailing comma |
| OutputCsv.StudentLineIsJoinedRow | src/output/csv.rs:42-53 | with cases, a student's line is the counted table's row for the student, joined by commas |
| OutputCsv.StudentLineReadsBack | src/output/csv.rs:42-53 | a student's line (if the name has no comma) split at commas gives back its name, counts and cells |
| OutputCsv.HeaderLineReadsBack | src/output/csv.rs:39-40 | the header line (if no case name has a comma) split at commas gives back "Name", "Passed", "Total" and the case names |
| OutputCsv.FirstDoesNotMatter | src/output/csv.rs:30-38 | when every student has the same cases, the text does not depend on which student comes first |
| OutputCsv.ExampleLines | src/output/csv.rs:65-91 | the example's four lines, with whichever student comes first |
| OutputCsv.CsvExample | src/output/csv.rs:85-92 | the example's text is exactly the source's expected CSV string |
| OutputCsv.PrintOutputExample | src/output/csv.rs:86-92 | a new output over an empty writer holds exactly that string after one call |
| Strings.NatToString | src/output/table.rs:66-67 | `format!("{}", n)` is a non-empty run of decimal digits with no leading zero |
| Strings.ParseNatToString | src/output/table.rs:66-67 | the decimal text of a count reads back as that count |
| Strings.NatToStringInjective | src/output/table.rs:66-67 | different counts have different texts |
| Strings.IntToString | src/conf/java.rs:94 | `format!("{}", i)` starts with `-` exactly for negatives, followed by the digits of the magnitude |
| Strings.SortedKeysSpec | src/output/csv.rs:30-38 | `sorted()` lists exactly the set's elements, in strictly increasing order |
| Strings.SortedKeysUnique | src/output/csv.rs:41 | any strictly increasing listing of a set is the sorted listing |
| Strings.SplitJoin | src/output/csv.rs:53 | splitting joined pieces at a separator that none of them contains gives the pieces back |

## Left out

- `src/main.rs`, `src/lib.rs` and `src/output/mod.rs` (argument parsing, choosing a renderer, printing CSV or a table to stdout) are not part of this model.
- `TestConfig::from_file` and the file read behind it are left out; configuration loading starts from a parsed TOML value tree, and TOML parsing itself is not modelled.
- Floating point: a TOML float timeout or float argument carries its `Display` text and the results of its two casts, so float arithmetic is not modelled.
- The date-time `Display` text, and `Display` in general, are taken as given strings.
- `glob` and `javac` are an oracle (`JavaConf.Toolchain`): which files match and whether compilation succeeds come from the host.
- The operating system's process behaviour comes from the host (`Process.ChildScript`). This covers real processes, pipes, signals and whether stdout is read while the child runs; a child that fills its stdout pipe and blocks is not modelled.
- Process.Child.WriteAll: always answers. In the program, `write_all` runs before any wait, so a child that never reads its stdin and never exits blocks the runner for good once the input fills the pipe, with or without a timeout (the timeout covers only the wait). That hang is not modelled, and `Process.Terminates` does not rule it out.
- Process.TestOutputAgainstStrings: requires that a child waited for without a timeout eventually stops, because the source then blocks forever; that hang is not modelled.
- Process.Outcome: defined only for runs that return (`Process.Terminates`), so the lemmas about it and `Grading.ProcessRunner` say nothing about a run that hangs; a hang is not an answer the program gives.
- The `println!` when reaping a killed child fails is not modelled; the failure itself is (`reapWorks`), and the answer is still Timeout. The ignored result of `kill` has no effect and is not modelled.
- The environment from `env_vars` is not merged into any process: the runner in `src/test/process.rs` does not accept one.
- The panics of `to_str().expect(...)` on non-Unicode file names and student paths: names are Dafny strings.
- The renderers' panics on an empty result set or a missing case are excluded by the requirement `Report.Renderable`, not modelled as errors.
- Writer I/O errors: the CSV writer is a string that always accepts text, so the `?` on each write never fires.
- CSV quoting and escaping: the source does none, and the read-back lemmas require names without commas.
- prettytable layout: for the plain and counted tables the model states the rows handed to the table library; its borders, padding and `table.print` are not modelled.
- `HashMap` iteration order is left open: the renderers are parameterised by the student iteration yields first, and the order of results inside a map is not observable anyway.
- `TestConfig::get_config`, `get_config_mut` and the `Deref` impls are plain accessors: the dispatch functions in `Conf` stand for them.
