/** Evaluating a whole class (`test_from_configuration` and
    `test_student_against_test_case` in src/test/mod.rs): discover the test
    cases of the fixture directory, read their inputs and outputs, then run
    every student directory of the target directory against every case.
    The file system is a value and the per-case runner a function. */
module Grading {
  import opened Wrappers
  import opened Time
  import Conf
  import JavaConf
  import Process

  type CaseResult = Result<Process.TestAnswer, Process.RunError>
  /** `StudentResults`: case name to result. */
  type StudentResults = map<string, CaseResult>
  /** `ClassResults`: student name to that student's results. */
  type ClassResults = map<string, StudentResults>

  datatype TestCase = TestCase(input: string, output: string)

  // The file system.

  /** What `entry.file_type()` answers. */
  datatype FileKind = IsDir | NotDir | KindUnknown
  /** One item of a `read_dir` iteration. */
  datatype DirEntry = Entry(name: string, kind: FileKind) | EntryError
  /** An openable file: its text, or a failure of `read_to_string`. */
  datatype FileData = Text(text: string) | Unreadable
  /** The listable directories and the openable files, by path. */
  datatype FileSystem = FileSystem(dirs: map<string, seq<DirEntry>>, files: map<string, FileData>)

  /** The errors that abort the whole run. */
  datatype GradingError = ReadDirFailed(path: string) | OpenFailed(path: string) | ReadFailed(path: string)

  /** `fs::read_dir(path)`. */
  function ReadDir(fs: FileSystem, path: string): (r: Result<seq<DirEntry>, GradingError>)
    ensures r.Ok? <==> path in fs.dirs
    ensures r.Ok? ==> r.value == fs.dirs[path]
    ensures r.Err? ==> r.error == ReadDirFailed(path)
  {
    if path in fs.dirs then Ok(fs.dirs[path]) else Err(ReadDirFailed(path))
  }

  /** `File::open(path)?.read_to_string(..)?`. */
  function ReadFile(fs: FileSystem, path: string): (r: Result<string, GradingError>)
    ensures r.Ok? <==> path in fs.files && fs.files[path].Text?
    ensures r.Ok? ==> r.value == fs.files[path].text
    ensures r.Err? ==> r.error == if path !in fs.files then OpenFailed(path) else ReadFailed(path)
  {
    if path !in fs.files then Err(OpenFailed(path))
    else match fs.files[path]
      case Unreadable => Err(ReadFailed(path))
      case Text(t) => Ok(t)
  }

  /** `Path::join` of a directory and a file name: a separator is added
      unless the directory is empty or already ends with one. */
  function JoinPath(dir: string, name: string): (r: string)
    ensures dir == "" ==> r == name
    ensures dir != "" && dir[|dir| - 1] == '/' ==> r == dir + name
    ensures dir != "" && dir[|dir| - 1] != '/' ==> r == dir + "/" + name
  {
    if dir == "" || dir[|dir| - 1] == '/' then dir + name else dir + "/" + name
  }

  // Case names: the capture of `(.*)[.][^.]+` in a file name.

  /** A `[.][^.]+` can start at `j`: a dot followed by a non-dot. */
  predicate SplitAt(s: string, j: int) {
    0 <= j && j + 1 < |s| && s[j] == '.' && s[j + 1] != '.'
  }

  /** The greedy `(.*)`: scanning from `j` to the end of the line (`.`
      matches anything but a newline), the last split point; `best` is the
      last one seen before `j`. */
  function LastSplit(s: string, j: nat, best: Option<nat>): (r: Option<nat>)
    requires j <= |s|
    ensures best.Some? ==> r.Some?
    ensures r.Some? && r != best ==> j <= r.value && SplitAt(s, r.value)
    decreases |s| - j
  {
    if j == |s| || s[j] == '\n' then best
    else LastSplit(s, j + 1, if SplitAt(s, j) then Some(j) else best)
  }

  /** The capture group of the leftmost match starting at `start` or later. */
  function CaptureFrom(s: string, start: nat): (r: Option<string>)
    requires start <= |s|
    ensures r.Some? ==> exists j :: start <= j && SplitAt(s, j)
    decreases |s| - start
  {
    match LastSplit(s, start, None)
    case Some(j) => Some(s[start..j])
    case None => if start == |s| then None else CaptureFrom(s, start + 1)
  }

  /** `FILENAME_EXT_REMOVER.captures(name)` group 1. */
  function CaseName(fileName: string): Option<string> {
    CaptureFrom(fileName, 0)
  }

  lemma {:induction false} CaptureFromComplete(s: string, start: nat, j: nat)
    requires start <= j && SplitAt(s, j)
    ensures CaptureFrom(s, start).Some?
    decreases j - start
  {
    if LastSplit(s, start, None).None? && start < j {
      CaptureFromComplete(s, start + 1, j);
    }
  }

  /** The greedy scan finds the last split point of the line that starts
      at `j`: the result is a split point on that line with none after it
      on the line, and when nothing new was found the line has no split
      point at all. */
  lemma {:induction false} LastSplitIsLast(s: string, j: nat, best: Option<nat>)
    requires j <= |s|
    requires best.Some? ==> best.value < j
    ensures var r := LastSplit(s, j, best);
      r.Some? && r != best ==>
        && j <= r.value && SplitAt(s, r.value) && '\n' !in s[j..r.value]
        && forall k :: r.value < k < |s| && '\n' !in s[j..k] ==> !SplitAt(s, k)
    ensures LastSplit(s, j, best) == best ==>
      forall k :: j <= k < |s| && '\n' !in s[j..k] ==> !SplitAt(s, k)
    decreases |s| - j
  {
    if j < |s| && s[j] != '\n' {
      var next := if SplitAt(s, j) then Some(j) else best;
      LastSplitIsLast(s, j + 1, next);
      forall k | j < k <= |s| ensures s[j..k] == [s[j]] + s[j + 1..k] {
      }
    }
  }

  /** The case name of a one-line name is the text before its last dot
      that is followed by a non-dot. */
  lemma CaseNameOfLastSplit(s: string, j: nat)
    requires '\n' !in s
    requires SplitAt(s, j)
    requires forall k :: j < k < |s| ==> !SplitAt(s, k)
    ensures CaseName(s) == Some(s[..j])
  {
    LastSplitIsLast(s, 0, None);
    var r := LastSplit(s, 0, None);
    assert '\n' !in s[0..j];
    assert r != None;
    assert '\n' !in s[0..r.value];
  }

  /** A file name gives a case exactly when it has a dot followed by a
      non-dot; other names contribute nothing. */
  lemma CaseNameIffSplit(fileName: string)
    ensures CaseName(fileName).Some? <==> exists j :: SplitAt(fileName, j)
  {
    if j :| SplitAt(fileName, j) {
      CaptureFromComplete(fileName, 0, j);
    }
  }

  lemma {:induction false} LastSplitPastDots(s: string, j: nat, best: Option<nat>)
    requires j <= |s|
    requires forall k :: j <= k < |s| ==> s[k] != '.'
    ensures LastSplit(s, j, best) == best
    decreases |s| - j
  {
    if j < |s| && s[j] != '\n' {
      LastSplitPastDots(s, j + 1, best);
    }
  }

  lemma {:induction false} LastSplitOfExtension(c: string, ext: string, j: nat, best: Option<nat>)
    requires '\n' !in c && |ext| >= 1 && '.' !in ext
    requires j <= |c|
    ensures LastSplit(c + "." + ext, j, best) == Some(|c|)
    decreases |c| - j
  {
    var s := c + "." + ext;
    if j == |c| {
      assert SplitAt(s, j) by { assert s[j + 1] == ext[0]; }
      forall k | j + 1 <= k < |s| ensures s[k] != '.' {
        assert s[k] == ext[k - j - 1];
      }
      LastSplitPastDots(s, j + 1, Some(j));
    } else {
      assert s[j] == c[j];
      LastSplitOfExtension(c, ext, j + 1, if SplitAt(s, j) then Some(j) else best);
    }
  }

  /** The case name of a one-line name that ends in a dot and an extension
      without dots is the part before that dot: "a.in" gives "a" and
      "x.tar.gz" gives "x.tar". */
  lemma CaseNameOfFileName(c: string, ext: string)
    requires '\n' !in c && |ext| >= 1 && '.' !in ext
    ensures CaseName(c + "." + ext) == Some(c)
  {
    LastSplitOfExtension(c, ext, 0, None);
    assert (c + "." + ext)[0..|c|] == c;
  }

  /** `unique()`: the first occurrence of every name, in order. */
  function Unique(xs: seq<string>): (r: seq<string>)
    ensures forall x :: x in r <==> x in xs
    ensures forall i, j :: 0 <= i < j < |r| ==> r[i] != r[j]
    decreases |xs|
  {
    if |xs| == 0 then []
    else
      var u := Unique(xs[..|xs| - 1]);
      if xs[|xs| - 1] in u then u else u + [xs[|xs| - 1]]
  }

  /** A list without repeats is left as it is, so `unique` is idempotent. */
  lemma {:induction false} UniqueOfDistinct(xs: seq<string>)
    requires forall i, j :: 0 <= i < j < |xs| ==> xs[i] != xs[j]
    ensures Unique(xs) == xs
    decreases |xs|
  {
    if |xs| > 0 {
      var init := xs[..|xs| - 1];
      UniqueOfDistinct(init);
      assert xs[|xs| - 1] !in init;
      assert init + [xs[|xs| - 1]] == xs;
    }
  }

  /** The names the fixture directory's entries give, in listing order;
      entries that fail to be read are skipped. Every entry counts, not
      only regular files. */
  function CaseNames(entries: seq<DirEntry>): (r: seq<string>)
    ensures forall c :: c in r <==> exists i :: 0 <= i < |entries| && entries[i].Entry? && CaseName(entries[i].name) == Some(c)
    decreases |entries|
  {
    if |entries| == 0 then []
    else
      var rest := CaseNames(entries[1..]);
      assert forall i :: 1 <= i < |entries| ==> entries[i] == entries[1..][i - 1];
      match entries[0]
      case EntryError => rest
      case Entry(name, _) =>
        match CaseName(name)
        case None => rest
        case Some(c) => [c] + rest
  }

  /** The file for each case with the given extension, as
      `format!("{}/{}.in", dir, case)` writes it. */
  function CasePaths(dir: string, cases: seq<string>, ext: string): (r: seq<string>)
    ensures |r| == |cases|
    ensures forall i :: 0 <= i < |cases| ==> r[i] == dir + "/" + cases[i] + ext
  {
    seq(|cases|, i requires 0 <= i < |cases| => dir + "/" + cases[i] + ext)
  }

  /** Read every file in order, stopping at the first failure. */
  function ReadAll(fs: FileSystem, paths: seq<string>): (r: Result<seq<string>, GradingError>)
    ensures r.Ok? <==> forall i :: 0 <= i < |paths| ==> ReadFile(fs, paths[i]).Ok?
    ensures r.Ok? ==> |r.value| == |paths| && forall i :: 0 <= i < |paths| ==> ReadFile(fs, paths[i]) == Ok(r.value[i])
    ensures r.Err? ==> exists i :: (0 <= i < |paths| && ReadFile(fs, paths[i]) == Err(r.error) &&
      forall k :: 0 <= k < i ==> ReadFile(fs, paths[k]).Ok?)
    decreases |paths|
  {
    if |paths| == 0 then Ok([])
    else
      var first :- ReadFile(fs, paths[0]);
      var rest :- ReadAll(fs, paths[1..]);
      assert forall i :: 1 <= i < |paths| ==> paths[i] == paths[1..][i - 1];
      Ok([first] + rest)
  }

  /** `cases.zip(inputs.zip(outputs)).collect()`: a later pair for the same
      name replaces an earlier one. */
  function ZipCases(cases: seq<string>, inputs: seq<string>, outputs: seq<string>): (r: map<string, TestCase>)
    requires |inputs| == |cases| && |outputs| == |cases|
    ensures r.Keys == set c | c in cases
    decreases |cases|
  {
    if |cases| == 0 then map[]
    else
      var n := |cases| - 1;
      ZipCases(cases[..n], inputs[..n], outputs[..n])[cases[n] := TestCase(inputs[n], outputs[n])]
  }

  lemma {:induction false} ZipCasesAt(cases: seq<string>, inputs: seq<string>, outputs: seq<string>, i: nat)
    requires |inputs| == |cases| && |outputs| == |cases|
    requires forall a, b :: 0 <= a < b < |cases| ==> cases[a] != cases[b]
    requires i < |cases|
    ensures ZipCases(cases, inputs, outputs)[cases[i]] == TestCase(inputs[i], outputs[i])
    decreases |cases|
  {
    var n := |cases| - 1;
    if i < n {
      ZipCasesAt(cases[..n], inputs[..n], outputs[..n], i);
    }
  }

  /** The test data of a fixture directory. */
  function LoadFixtures(fs: FileSystem, dir: string): Result<map<string, TestCase>, GradingError> {
    var entries :- ReadDir(fs, dir);
    var cases := CaseList(fs, dir);
    var inputs :- ReadAll(fs, CasePaths(dir, cases, ".in"));
    var outputs :- ReadAll(fs, CasePaths(dir, cases, ".out"));
    Ok(ZipCases(cases, inputs, outputs))
  }

  /** The names of the cases one fixture directory listing gives. */
  function CaseSet(entries: seq<DirEntry>): set<string> {
    set c | c in CaseNames(entries)
  }

  /** Both files of a case can be read. */
  predicate Readable(fs: FileSystem, dir: string, c: string) {
    ReadFile(fs, dir + "/" + c + ".in").Ok? && ReadFile(fs, dir + "/" + c + ".out").Ok?
  }

  /** The cases of a listable fixture directory, in order. */
  function CaseList(fs: FileSystem, dir: string): (r: seq<string>)
    requires dir in fs.dirs
    ensures forall c :: c in r <==> c in CaseSet(fs.dirs[dir])
    ensures forall i, j :: 0 <= i < j < |r| ==> r[i] != r[j]
  {
    Unique(CaseNames(fs.dirs[dir]))
  }

  lemma ReadAllCases(fs: FileSystem, dir: string, ext: string)
    requires dir in fs.dirs
    ensures ReadAll(fs, CasePaths(dir, CaseList(fs, dir), ext)).Ok? <==>
      forall c :: c in CaseSet(fs.dirs[dir]) ==> ReadFile(fs, dir + "/" + c + ext).Ok?
  {
    var cases := CaseList(fs, dir);
    var paths := CasePaths(dir, cases, ext);
    if forall c :: c in CaseSet(fs.dirs[dir]) ==> ReadFile(fs, dir + "/" + c + ext).Ok? {
      forall i | 0 <= i < |paths| ensures ReadFile(fs, paths[i]).Ok? {
        assert cases[i] in CaseSet(fs.dirs[dir]);
      }
    } else {
      var c :| c in CaseSet(fs.dirs[dir]) && !ReadFile(fs, dir + "/" + c + ext).Ok?;
      var i :| 0 <= i < |cases| && cases[i] == c;
      assert !ReadFile(fs, paths[i]).Ok?;
    }
  }

  /** Loading the fixtures succeeds exactly when the directory can be listed
      and both files of every case it names can be read ... */
  lemma LoadFixturesOk(fs: FileSystem, dir: string)
    ensures LoadFixtures(fs, dir).Ok? <==>
      dir in fs.dirs && forall c :: c in CaseSet(fs.dirs[dir]) ==> Readable(fs, dir, c)
  {
    if dir in fs.dirs {
      ReadAllCases(fs, dir, ".in");
      ReadAllCases(fs, dir, ".out");
    }
  }

  /** ... and then there is one test case per name, holding exactly the
      texts of its two files. */
  lemma LoadFixturesContents(fs: FileSystem, dir: string)
    requires LoadFixtures(fs, dir).Ok?
    ensures dir in fs.dirs
    ensures LoadFixtures(fs, dir).value.Keys == CaseSet(fs.dirs[dir])
    ensures forall c :: c in LoadFixtures(fs, dir).value ==>
      LoadFixtures(fs, dir).value[c] == TestCase(
        ReadFile(fs, dir + "/" + c + ".in").value, ReadFile(fs, dir + "/" + c + ".out").value)
  {
    var cases := CaseList(fs, dir);
    var inputs := ReadAll(fs, CasePaths(dir, cases, ".in")).value;
    var outputs := ReadAll(fs, CasePaths(dir, cases, ".out")).value;
    var fixtures := ZipCases(cases, inputs, outputs);
    assert LoadFixtures(fs, dir) == Ok(fixtures);
    forall c | c in fixtures
      ensures fixtures[c] == TestCase(ReadFile(fs, dir + "/" + c + ".in").value, ReadFile(fs, dir + "/" + c + ".out").value)
    {
      var i :| 0 <= i < |cases| && cases[i] == c;
      ZipCasesAt(cases, inputs, outputs, i);
    }
  }

  // Running the students.

  /** One run of a submission on one case. The environment is passed along
      as the caller in src/test/mod.rs does, although the runner in
      src/test/process.rs takes no environment. */
  datatype Invocation = Invocation(
    command: string,
    args: seq<string>,
    env: map<string, string>,
    input: string,
    expected: string,
    timeout: Option<Duration>)

  /** The world a grading run works in: the file system, the Java toolchain
      and the per-case runner. */
  datatype Host = Host(fs: FileSystem, tools: JavaConf.Toolchain, run: Invocation -> CaseResult)

  /** `test_student_against_test_case`: every case run once, its result
      recorded under its name. */
  function TestStudentAgainstTestCase(cmd: string, args: seq<string>, env: map<string, string>,
      cases: map<string, TestCase>, timeout: Option<Duration>, run: Invocation -> CaseResult): (r: StudentResults)
    ensures r.Keys == cases.Keys
  {
    map k | k in cases :: run(Invocation(cmd, args, env, cases[k].input, cases[k].output, timeout))
  }

  /** The names of the entries of the target directory that are
      directories; failing entries and failing type lookups are skipped. */
  function StudentSet(entries: seq<DirEntry>): set<string> {
    set i | 0 <= i < |entries| && entries[i].Entry? && entries[i].kind == IsDir :: entries[i].name
  }

  /** The results of the student in directory `name` of the target
      directory. */
  function GradeStudent(config: Conf.TestConfig, host: Host, fixtures: map<string, TestCase>, name: string): StudentResults {
    var path := JoinPath(Conf.TargetDir(config), name);
    if !Conf.DoSetup(config, host.tools, path) then
      map k | k in fixtures :: Ok(Process.CompileError)
    else
      TestStudentAgainstTestCase(Conf.Command(config, path), Conf.Args(config, path), Conf.EnvVars(config, path),
        fixtures, Conf.CaseTimeout(config), host.run)
  }

  /** `test_from_configuration`. */
  function TestFromConfiguration(config: Conf.TestConfig, host: Host): Result<ClassResults, GradingError> {
    var fixtures :- LoadFixtures(host.fs, Conf.TestTypeOf(config).dir);
    var entries :- ReadDir(host.fs, Conf.TargetDir(config));
    Ok(map name | name in StudentSet(entries) :: GradeStudent(config, host, fixtures, name))
  }

  /** The whole run fails only for a fixture problem or an unlistable
      target directory, never for anything a student's run does: whether it
      fails and with which error does not depend on the runner or the
      toolchain. */
  lemma FailuresAreGlobal(config: Conf.TestConfig, host: Host)
    ensures TestFromConfiguration(config, host).Ok? <==>
      LoadFixtures(host.fs, Conf.TestTypeOf(config).dir).Ok? && Conf.TargetDir(config) in host.fs.dirs
    ensures TestFromConfiguration(config, host).Err? ==>
      TestFromConfiguration(config, host).error ==
        if LoadFixtures(host.fs, Conf.TestTypeOf(config).dir).Err? then LoadFixtures(host.fs, Conf.TestTypeOf(config).dir).error
        else ReadDirFailed(Conf.TargetDir(config))
  {
  }

  /** Completeness: there is one result map per student directory, every
      one of them has exactly the fixtures' case names, and each result is
      CompileError when setup failed and otherwise the runner's result on
      that case, with the case's input and expected output. */
  lemma {:induction false} Completeness(config: Conf.TestConfig, host: Host, s: string, k: string)
    requires TestFromConfiguration(config, host).Ok?
    ensures TestFromConfiguration(config, host).value.Keys == StudentSet(host.fs.dirs[Conf.TargetDir(config)])
    ensures s in TestFromConfiguration(config, host).value ==>
      TestFromConfiguration(config, host).value[s].Keys == LoadFixtures(host.fs, Conf.TestTypeOf(config).dir).value.Keys
    ensures s in TestFromConfiguration(config, host).value && k in TestFromConfiguration(config, host).value[s] ==>
      var path := JoinPath(Conf.TargetDir(config), s);
      var t := LoadFixtures(host.fs, Conf.TestTypeOf(config).dir).value[k];
      TestFromConfiguration(config, host).value[s][k] ==
        if !Conf.DoSetup(config, host.tools, path) then Ok(Process.CompileError)
        else host.run(Invocation(Conf.Command(config, path), Conf.Args(config, path), Conf.EnvVars(config, path),
          t.input, t.output, Conf.CaseTimeout(config)))
  {
  }

  /** A student whose setup fails gets the same results whatever the runner
      does: no case is run. */
  lemma SetupFailureRunsNothing(config: Conf.TestConfig, host: Host, run: Invocation -> CaseResult, s: string)
    requires TestFromConfiguration(config, host).Ok?
    requires s in TestFromConfiguration(config, host).value
    requires !Conf.DoSetup(config, host.tools, JoinPath(Conf.TargetDir(config), s))
    ensures TestFromConfiguration(config, host.(run := run)).Ok?
    ensures TestFromConfiguration(config, host.(run := run)).value[s] == TestFromConfiguration(config, host).value[s]
    ensures forall k :: k in TestFromConfiguration(config, host).value[s] ==>
      TestFromConfiguration(config, host).value[s][k] == Ok(Process.CompileError)
  {
  }

  /** When the runner never answers CompileError, a CompileError result
      means exactly that the student's setup failed. */
  lemma CompileErrorIffSetupFailed(config: Conf.TestConfig, host: Host, s: string, k: string)
    requires forall inv :: host.run(inv) != Ok(Process.CompileError)
    requires TestFromConfiguration(config, host).Ok?
    requires s in TestFromConfiguration(config, host).value && k in TestFromConfiguration(config, host).value[s]
    ensures TestFromConfiguration(config, host).value[s][k] == Ok(Process.CompileError) <==>
      !Conf.DoSetup(config, host.tools, JoinPath(Conf.TargetDir(config), s))
  {
    Completeness(config, host, s, k);
  }

  /** Every run the operating system `os` can be asked for returns. */
  ghost predicate AlwaysReturns(os: (string, seq<string>) -> Process.ChildScript) {
    forall inv: Invocation :: Process.Terminates(os(inv.command, inv.args), inv.timeout)
  }

  /** The runner of src/test/process.rs, given how the operating system
      answers for each command line; it ignores the environment. It is a
      runner only where every run returns: a child waited for without a
      limit that never stops leaves the program waiting forever. */
  function ProcessRunner(os: (string, seq<string>) -> Process.ChildScript): Invocation -> CaseResult
    requires AlwaysReturns(os)
  {
    (inv: Invocation) => Process.Outcome(os(inv.command, inv.args), inv.input, inv.expected, inv.timeout)
  }

  /** With the process runner, CompileError appears exactly for the
      students whose setup failed. */
  lemma ProcessCompileErrors(config: Conf.TestConfig, fs: FileSystem, tools: JavaConf.Toolchain,
      os: (string, seq<string>) -> Process.ChildScript, s: string, k: string)
    requires AlwaysReturns(os)
    requires TestFromConfiguration(config, Host(fs, tools, ProcessRunner(os))).Ok?
    requires s in TestFromConfiguration(config, Host(fs, tools, ProcessRunner(os))).value
    requires k in TestFromConfiguration(config, Host(fs, tools, ProcessRunner(os))).value[s]
    ensures TestFromConfiguration(config, Host(fs, tools, ProcessRunner(os))).value[s][k] == Ok(Process.CompileError) <==>
      !Conf.DoSetup(config, tools, JoinPath(Conf.TargetDir(config), s))
  {
    forall inv: Invocation ensures ProcessRunner(os)(inv) != Ok(Process.CompileError) {
      Process.NeverGraded(os(inv.command, inv.args), inv.input, inv.expected, inv.timeout);
    }
    CompileErrorIffSetupFailed(config, Host(fs, tools, ProcessRunner(os)), s, k);
  }

  // Examples of case discovery.

  /** Trailing dots do not form an extension: the name is cut at the last
      dot that a non-dot follows. */
  lemma CaseNameTrailingDots()
    ensures CaseName("a.b..") == Some("a")
  {
    CaseNameOfLastSplit("a.b..", 1);
    assert "a.b.."[..1] == "a";
  }

  lemma CaseNameExamples()
    ensures CaseName("a.in") == Some("a")
    ensures CaseName("x.tar.gz") == Some("x.tar")
    ensures CaseName(".in") == Some("")
  {
    assert CaseName("a.in") == Some("a") by {
      CaseNameOfFileName("a", "in");
      assert "a" + "." + "in" == "a.in";
    }
    assert CaseName("x.tar.gz") == Some("x.tar") by {
      CaseNameOfFileName("x.tar", "gz");
      assert "x.tar" + "." + "gz" == "x.tar.gz";
    }
    assert CaseName(".in") == Some("") by {
      CaseNameOfFileName("", "in");
      assert "" + "." + "in" == ".in";
    }
  }

  /** Names without a dot followed by a non-dot give no case. */
  lemma CaseNameNoExtension()
    ensures CaseName("README") == None
    ensures CaseName("a..") == None
  {
    CaseNameIffSplit("README");
    CaseNameIffSplit("a..");
  }

  /** "x.in" and "x.out" give the single case "x". */
  lemma OneCasePerPair()
    ensures Unique(CaseNames([Entry("x.in", NotDir), Entry("x.out", NotDir)])) == ["x"]
  {
    CaseNameOfFileName("x", "in");
    CaseNameOfFileName("x", "out");
    assert "x" + "." + "in" == "x.in";
    assert "x" + "." + "out" == "x.out";
    var entries := [Entry("x.in", NotDir), Entry("x.out", NotDir)];
    assert entries[1..] == [Entry("x.out", NotDir)];
    assert entries[1..][1..] == [];
    assert CaseNames(entries) == ["x", "x"];
    assert ["x", "x"][..1] == ["x"];
    assert ["x"][..0] == [];
  }
}
