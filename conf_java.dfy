/** The Java backend: `JavaConfig::from_toml` and the `Config` operations
    of `JavaConfig`. */
module JavaConf {
  import opened Wrappers
  import opened Toml
  import opened Time
  import opened ConfFields

  /** Default timeout for Java programs, in seconds, per test case. */
  const DEFAULT_TIMEOUT: nat := 5

  const SHOULD_BE_STRING: string := "should be a string"
  const MUST_BE_STRING: string := "must be a string"
  const TIMEOUT_KIND: string := "\"timeout\", if specified, should be a number or boolean"
  const ARGS_KIND: string := "\"args\", if specified, must be an array"

  datatype JavaConfig = JavaConfig(
    name: string,
    testDataDir: string,
    timeout: Option<Duration>,
    mainClass: string,
    args: seq<string>,
    targetDir: string)

  datatype JavaConfigError = JavaConfigError(description: string)

  function Lift<T>(r: Result<T, string>): Result<T, JavaConfigError> {
    r.MapErr(d => JavaConfigError(d))
  }

  /** `JavaConfig::from_toml`: the fields are checked in the order name,
      tests_dir, main_class, timeout, args, target_dir, and the first
      failing check is the error. */
  function FromToml(conf: Value): Result<JavaConfig, JavaConfigError> {
    var name :- Lift(RequiredString(conf, "name", SHOULD_BE_STRING));
    var testDataDir :- Lift(RequiredString(conf, "tests_dir", SHOULD_BE_STRING));
    var mainClass :- Lift(RequiredString(conf, "main_class", SHOULD_BE_STRING));
    var timeout :- Lift(TimeoutField(conf, DEFAULT_TIMEOUT, TIMEOUT_KIND));
    var args :- Lift(ArgsField(conf, ARGS_KIND));
    var targetDir :- Lift(RequiredString(conf, "target_dir", MUST_BE_STRING));
    Ok(JavaConfig(name, testDataDir, timeout, mainClass, args, targetDir))
  }

  /** The error, if any, of the k-th field check in source order. */
  function FieldError(conf: Value, k: nat): Option<string>
    requires k < 6
  {
    if k == 0 then ErrorOf(RequiredString(conf, "name", SHOULD_BE_STRING))
    else if k == 1 then ErrorOf(RequiredString(conf, "tests_dir", SHOULD_BE_STRING))
    else if k == 2 then ErrorOf(RequiredString(conf, "main_class", SHOULD_BE_STRING))
    else if k == 3 then ErrorOf(TimeoutField(conf, DEFAULT_TIMEOUT, TIMEOUT_KIND))
    else if k == 4 then ErrorOf(ArgsField(conf, ARGS_KIND))
    else ErrorOf(RequiredString(conf, "target_dir", MUST_BE_STRING))
  }

  /** A section is accepted exactly when every field check passes; when it
      is rejected, the error is that of the first failing check. */
  lemma FromTomlFirstError(conf: Value)
    ensures FromToml(conf).Ok? <==> forall k :: 0 <= k < 6 ==> FieldError(conf, k).None?
    ensures FromToml(conf).Err? ==>
      exists k :: 0 <= k < 6 && FieldError(conf, k) == Some(FromToml(conf).error.description) &&
        forall j :: 0 <= j < k ==> FieldError(conf, j).None?
  {
    if FromToml(conf).Ok? {
      forall k | 0 <= k < 6 ensures FieldError(conf, k).None? {
      }
    } else {
      var e := FromToml(conf).error.description;
      if FieldError(conf, 0).Some? {
        assert FieldError(conf, 0) == Some(e);
      } else if FieldError(conf, 1).Some? {
        assert FieldError(conf, 1) == Some(e);
      } else if FieldError(conf, 2).Some? {
        assert FieldError(conf, 2) == Some(e);
      } else if FieldError(conf, 3).Some? {
        assert FieldError(conf, 3) == Some(e);
      } else if FieldError(conf, 4).Some? {
        assert FieldError(conf, 4) == Some(e);
      } else {
        assert FieldError(conf, 5) == Some(e);
      }
    }
  }

  /** On success every stored field is the value its check produced, and
      nothing else. */
  lemma FromTomlFields(conf: Value)
    requires FromToml(conf).Ok?
    ensures var c := FromToml(conf).value;
      && Get(conf, "name") == Some(String(c.name))
      && Get(conf, "tests_dir") == Some(String(c.testDataDir))
      && Get(conf, "main_class") == Some(String(c.mainClass))
      && TimeoutField(conf, DEFAULT_TIMEOUT, TIMEOUT_KIND) == Ok(c.timeout)
      && ArgsField(conf, ARGS_KIND) == Ok(c.args)
      && Get(conf, "target_dir") == Some(String(c.targetDir))
  {
  }

  predicate Writable(c: JavaConfig) {
    WritableTimeout(c.timeout)
  }

  /** The `[java]` section a configuration is written as. */
  function ToToml(c: JavaConfig): Value
    requires Writable(c)
  {
    Table(map[
      "name" := String(c.name),
      "tests_dir" := String(c.testDataDir),
      "main_class" := String(c.mainClass),
      "timeout" := TimeoutValue(c.timeout),
      "args" := StringArray(c.args),
      "target_dir" := String(c.targetDir)])
  }

  /** Every configuration whose timeout TOML can express is read back
      unchanged from its section. */
  lemma FromTomlToToml(c: JavaConfig)
    requires Writable(c)
    ensures FromToml(ToToml(c)) == Ok(c)
  {
    var conf := ToToml(c);
    TimeoutRoundTrip(conf, c.timeout, DEFAULT_TIMEOUT, TIMEOUT_KIND);
    ArgsOfStringArray(c.args);
  }

  /** `command`: the Java launcher, whatever the student directory. */
  function Command(c: JavaConfig, studentDir: string): string {
    "java"
  }

  /** `args`: the main class, then the configured arguments. */
  function Args(c: JavaConfig, studentDir: string): seq<string> {
    [c.mainClass] + c.args
  }

  /** `env_vars`: the class path is the student directory. */
  function EnvVars(c: JavaConfig, studentDir: string): map<string, string> {
    map["CLASSPATH" := studentDir]
  }

  lemma CommandLine(c: JavaConfig, d1: string, d2: string)
    ensures Command(c, d1) == "java"
    ensures Args(c, d1) == Args(c, d2)
    ensures |Args(c, d1)| == 1 + |c.args| && Args(c, d1)[0] == c.mainClass && Args(c, d1)[1..] == c.args
    ensures EnvVars(c, d1).Keys == {"CLASSPATH"} && EnvVars(c, d1)["CLASSPATH"] == d1
  {
  }

  /** One entry of a `glob` listing. */
  datatype GlobEntry = Path(path: string) | Unreadable

  /** What `glob(pattern)` yields: a bad pattern, or the matches. */
  datatype GlobResult = PatternError | Matches(entries: seq<GlobEntry>)

  /** What spawning `javac` and waiting for it yields. */
  datatype JavacRun = SpawnFailed | WaitFailed | Exited(success: bool)

  /** The host's answers to the setup step: the glob expansion of a
      pattern and the outcome of running `javac` on a list of files. */
  datatype Toolchain = Toolchain(glob: string -> GlobResult, javac: seq<string> -> JavacRun)

  /** `collect::<Result<Vec<PathBuf>, _>>()` over the glob matches. */
  function CollectPaths(es: seq<GlobEntry>): (r: Option<seq<string>>)
    ensures r.Some? <==> forall k :: 0 <= k < |es| ==> es[k].Path?
    ensures r.Some? ==> |r.value| == |es| && forall k :: 0 <= k < |es| ==> r.value[k] == es[k].path
    decreases |es|
  {
    if |es| == 0 then Some([])
    else match (es[0], CollectPaths(es[1..]))
      case (Path(p), Some(rest)) => Some([p] + rest)
      case _ => None
  }

  /** `do_setup`: compile the `.java` files directly inside the student
      directory with `javac`. */
  function DoSetup(tools: Toolchain, studentDir: string): bool {
    match tools.glob(studentDir + "/*.java")
    case PatternError => false
    case Matches(es) =>
      match CollectPaths(es)
      case None => false
      case Some(files) =>
        match tools.javac(files)
        case Exited(ok) => ok
        case _ => false
  }

  /** Setup succeeds exactly when the glob of the student directory's
      `.java` files can be read throughout, `javac` is run on the matched files in order, and it
      reports success; in particular an empty match list is not a failure
      in itself. */
  lemma DoSetupSpec(tools: Toolchain, studentDir: string)
    ensures DoSetup(tools, studentDir) <==>
      var g := tools.glob(studentDir + "/*.java");
      && g.Matches?
      && (forall k :: 0 <= k < |g.entries| ==> g.entries[k].Path?)
      && tools.javac(seq(|g.entries|, k requires 0 <= k < |g.entries| => g.entries[k].path)) == Exited(true)
  {
    var g := tools.glob(studentDir + "/*.java");
    if g.Matches? && CollectPaths(g.entries).Some? {
      assert CollectPaths(g.entries).value == seq(|g.entries|, k requires 0 <= k < |g.entries| => g.entries[k].path);
    }
  }
}
