/** The Python backend: `PythonConfig::from_toml` and the `Config`
    operations of `PythonConfig`. */
module PythonConf {
  import opened Wrappers
  import opened Toml
  import opened Time
  import opened ConfFields

  /** Default timeout for Python programs, in seconds, per test case. */
  const DEFAULT_TIMEOUT: nat := 5

  /** The operating-system family the program is built for; it fixes the
      default interpreter at compile time. */
  datatype TargetFamily = Unix | Windows

  /** `DEFAULT_PYTHON`. */
  function DefaultPython(family: TargetFamily): string {
    match family
    case Windows => "python"
    case Unix => "python3"
  }

  const SHOULD_BE_STRING: string := "should be a string"
  const MUST_BE_STRING: string := "must be a string"
  const VERSION_KIND: string := "\"version\", if specified, must be a string"
  const TIMEOUT_KIND: string := "\"timeout\", if specified, should be a number or false"
  const ARGS_KIND: string := "\"args\", if specified, must be an array"

  datatype PythonConfig = PythonConfig(
    name: string,
    testDataDir: string,
    pythonVersion: string,
    timeout: Option<Duration>,
    filename: string,
    args: seq<string>,
    targetDir: string)

  datatype PythonConfigError = PythonConfigError(description: string)

  function Lift<T>(r: Result<T, string>): Result<T, PythonConfigError> {
    r.MapErr(d => PythonConfigError(d))
  }

  /** The optional `version` field. */
  function VersionField(conf: Value, family: TargetFamily): Result<string, string> {
    match Get(conf, "version")
    case Some(String(s)) => Ok(s)
    case None => Ok(DefaultPython(family))
    case Some(_) => Err(VERSION_KIND)
  }

  /** `PythonConfig::from_toml`: the fields are checked in the order name,
      tests_dir, version, timeout, file, args, target_dir, and the first
      failing check is the error. */
  function FromToml(conf: Value, family: TargetFamily): Result<PythonConfig, PythonConfigError> {
    var name :- Lift(RequiredString(conf, "name", SHOULD_BE_STRING));
    var testDataDir :- Lift(RequiredString(conf, "tests_dir", SHOULD_BE_STRING));
    var pythonVersion :- Lift(VersionField(conf, family));
    var timeout :- Lift(TimeoutField(conf, DEFAULT_TIMEOUT, TIMEOUT_KIND));
    var filename :- Lift(RequiredString(conf, "file", SHOULD_BE_STRING));
    var args :- Lift(ArgsField(conf, ARGS_KIND));
    var targetDir :- Lift(RequiredString(conf, "target_dir", MUST_BE_STRING));
    Ok(PythonConfig(name, testDataDir, pythonVersion, timeout, filename, args, targetDir))
  }

  /** The error, if any, of the k-th field check in source order. */
  function FieldError(conf: Value, family: TargetFamily, k: nat): Option<string>
    requires k < 7
  {
    if k == 0 then ErrorOf(RequiredString(conf, "name", SHOULD_BE_STRING))
    else if k == 1 then ErrorOf(RequiredString(conf, "tests_dir", SHOULD_BE_STRING))
    else if k == 2 then ErrorOf(VersionField(conf, family))
    else if k == 3 then ErrorOf(TimeoutField(conf, DEFAULT_TIMEOUT, TIMEOUT_KIND))
    else if k == 4 then ErrorOf(RequiredString(conf, "file", SHOULD_BE_STRING))
    else if k == 5 then ErrorOf(ArgsField(conf, ARGS_KIND))
    else ErrorOf(RequiredString(conf, "target_dir", MUST_BE_STRING))
  }

  /** A section is accepted exactly when every field check passes; when it
      is rejected, the error is that of the first failing check. */
  lemma FromTomlFirstError(conf: Value, family: TargetFamily)
    ensures FromToml(conf, family).Ok? <==> forall k :: 0 <= k < 7 ==> FieldError(conf, family, k).None?
    ensures FromToml(conf, family).Err? ==>
      exists k :: 0 <= k < 7 && FieldError(conf, family, k) == Some(FromToml(conf, family).error.description) &&
        forall j :: 0 <= j < k ==> FieldError(conf, family, j).None?
  {
    if FromToml(conf, family).Ok? {
      forall k | 0 <= k < 7 ensures FieldError(conf, family, k).None? {
      }
    } else {
      var e := FromToml(conf, family).error.description;
      if FieldError(conf, family, 0).Some? {
        assert FieldError(conf, family, 0) == Some(e);
      } else if FieldError(conf, family, 1).Some? {
        assert FieldError(conf, family, 1) == Some(e);
      } else if FieldError(conf, family, 2).Some? {
        assert FieldError(conf, family, 2) == Some(e);
      } else if FieldError(conf, family, 3).Some? {
        assert FieldError(conf, family, 3) == Some(e);
      } else if FieldError(conf, family, 4).Some? {
        assert FieldError(conf, family, 4) == Some(e);
      } else if FieldError(conf, family, 5).Some? {
        assert FieldError(conf, family, 5) == Some(e);
      } else {
        assert FieldError(conf, family, 6) == Some(e);
      }
    }
  }

  /** On success every stored field is the value its check produced; an
      absent `version` stores the platform default. */
  lemma FromTomlFields(conf: Value, family: TargetFamily)
    requires FromToml(conf, family).Ok?
    ensures var c := FromToml(conf, family).value;
      && Get(conf, "name") == Some(String(c.name))
      && Get(conf, "tests_dir") == Some(String(c.testDataDir))
      && (Get(conf, "version") == None ==> c.pythonVersion == DefaultPython(family))
      && (Get(conf, "version") != None ==> Get(conf, "version") == Some(String(c.pythonVersion)))
      && TimeoutField(conf, DEFAULT_TIMEOUT, TIMEOUT_KIND) == Ok(c.timeout)
      && Get(conf, "file") == Some(String(c.filename))
      && ArgsField(conf, ARGS_KIND) == Ok(c.args)
      && Get(conf, "target_dir") == Some(String(c.targetDir))
  {
  }

  predicate Writable(c: PythonConfig) {
    WritableTimeout(c.timeout)
  }

  /** The `[python]` section a configuration is written as. */
  function ToToml(c: PythonConfig): Value
    requires Writable(c)
  {
    Table(map[
      "name" := String(c.name),
      "tests_dir" := String(c.testDataDir),
      "version" := String(c.pythonVersion),
      "timeout" := TimeoutValue(c.timeout),
      "file" := String(c.filename),
      "args" := StringArray(c.args),
      "target_dir" := String(c.targetDir)])
  }

  /** Every configuration whose timeout TOML can express is read back
      unchanged from its section, on either platform. */
  lemma FromTomlToToml(c: PythonConfig, family: TargetFamily)
    requires Writable(c)
    ensures FromToml(ToToml(c), family) == Ok(c)
  {
    var conf := ToToml(c);
    TimeoutRoundTrip(conf, c.timeout, DEFAULT_TIMEOUT, TIMEOUT_KIND);
    ArgsOfStringArray(c.args);
  }

  /** `command`: the configured interpreter, whatever the student
      directory. */
  function Command(c: PythonConfig, studentDir: string): string {
    c.pythonVersion
  }

  /** `args`: the script inside the student directory, then the configured
      arguments. */
  function Args(c: PythonConfig, studentDir: string): seq<string> {
    [studentDir + "/" + c.filename] + c.args
  }

  /** `do_setup`: nothing to prepare. */
  function DoSetup(c: PythonConfig, studentDir: string): bool {
    true
  }

  /** `env_vars`: no extra variables. */
  function EnvVars(c: PythonConfig, studentDir: string): map<string, string> {
    map[]
  }
}
