/** Configuration loading (`TestConfig::from_toml_values`) and the
    backend-independent `Config` interface, as a tagged union over the two
    backends with one dispatch per operation. */
module Conf {
  import opened Wrappers
  import opened Toml
  import opened Time
  import JavaConf
  import PythonConf
  import ConfFields

  const NOT_A_TABLE: string := "The config file wasn't a table (shouldn't be thrown)"
  const NOT_ONE_SECTION: string := "The config file should have exactly one section"
  const UNRECOGNIZED: string := "Unrecognized config type: "

  /** The boxed error `from_toml_values` returns: its own, or the one a
      backend reported. */
  datatype ConfigError =
    | InterpretConfigError(description: string)
    | Java(javaError: JavaConf.JavaConfigError)
    | Python(pythonError: PythonConf.PythonConfigError)

  /** `TestConfig`: a configuration of one of the backends. */
  datatype TestConfig =
    | JavaTest(java: JavaConf.JavaConfig)
    | PythonTest(python: PythonConf.PythonConfig)

  /** `TestType`: where the test cases come from. */
  datatype TestType = Directory(dir: string)

  /** The only key of a one-entry table. */
  function OnlyKey<V>(t: map<string, V>): (k: string)
    requires |t| == 1
    ensures t.Keys == {k}
  {
    var k0 :| k0 in t;
    assert |t.Keys - {k0}| == 0;
    assert t.Keys == {k0};
    var k :| k in t;
    k
  }

  /** `TestConfig::from_toml_values`. */
  function FromTomlValues(values: Value, family: PythonConf.TargetFamily): Result<TestConfig, ConfigError> {
    match values
    case Table(t) =>
      if |t| == 1 then
        var key := OnlyKey(t);
        if key == "java" then
          match JavaConf.FromToml(t[key])
          case Ok(c) => Ok(JavaTest(c))
          case Err(e) => Err(Java(e))
        else if key == "python" then
          match PythonConf.FromToml(t[key], family)
          case Ok(c) => Ok(PythonTest(c))
          case Err(e) => Err(Python(e))
        else Err(InterpretConfigError(UNRECOGNIZED + key))
      else Err(InterpretConfigError(NOT_ONE_SECTION))
    case _ => Err(InterpretConfigError(NOT_A_TABLE))
  }

  /** How a document is dispatched: it must be a table with exactly one
      section; `java` and `python` hand the section to their backend and
      pass its result or error on unchanged; any other name is rejected. */
  lemma FromTomlValuesDispatch(values: Value, family: PythonConf.TargetFamily)
    ensures !values.Table? ==> FromTomlValues(values, family) == Err(InterpretConfigError(NOT_A_TABLE))
    ensures values.Table? && |values.entries| != 1 ==>
      FromTomlValues(values, family) == Err(InterpretConfigError(NOT_ONE_SECTION))
    ensures values.Table? && values.entries.Keys == {"java"} ==>
      var r := JavaConf.FromToml(values.entries["java"]);
      FromTomlValues(values, family) == if r.Ok? then Ok(JavaTest(r.value)) else Err(Java(r.error))
    ensures values.Table? && values.entries.Keys == {"python"} ==>
      var r := PythonConf.FromToml(values.entries["python"], family);
      FromTomlValues(values, family) == if r.Ok? then Ok(PythonTest(r.value)) else Err(Python(r.error))
    ensures forall key :: values.Table? && values.entries.Keys == {key} && key != "java" && key != "python" ==>
      FromTomlValues(values, family) == Err(InterpretConfigError(UNRECOGNIZED + key))
  {
    if values.Table? && |values.entries| == 1 {
      var k := OnlyKey(values.entries);
      forall key | values.entries.Keys == {key} ensures key == k {
        assert key in values.entries.Keys;
      }
    }
  }

  /** Every configuration a document yields is the backend's reading of its
      one section. */
  lemma FromTomlValuesOk(values: Value, family: PythonConf.TargetFamily)
    requires FromTomlValues(values, family).Ok?
    ensures values.Table? && |values.entries| == 1
    ensures FromTomlValues(values, family).value.JavaTest? ==>
      "java" in values.entries &&
      JavaConf.FromToml(values.entries["java"]) == Ok(FromTomlValues(values, family).value.java)
    ensures FromTomlValues(values, family).value.PythonTest? ==>
      "python" in values.entries &&
      PythonConf.FromToml(values.entries["python"], family) == Ok(FromTomlValues(values, family).value.python)
  {
  }

  // The `Config` interface.

  function Name(c: TestConfig): string {
    match c
    case JavaTest(j) => j.name
    case PythonTest(p) => p.name
  }

  function TestTypeOf(c: TestConfig): TestType {
    match c
    case JavaTest(j) => Directory(j.testDataDir)
    case PythonTest(p) => Directory(p.testDataDir)
  }

  function CaseTimeout(c: TestConfig): Option<Duration> {
    match c
    case JavaTest(j) => j.timeout
    case PythonTest(p) => p.timeout
  }

  function Command(c: TestConfig, studentDir: string): string {
    match c
    case JavaTest(j) => JavaConf.Command(j, studentDir)
    case PythonTest(p) => PythonConf.Command(p, studentDir)
  }

  function Args(c: TestConfig, studentDir: string): seq<string> {
    match c
    case JavaTest(j) => JavaConf.Args(j, studentDir)
    case PythonTest(p) => PythonConf.Args(p, studentDir)
  }

  function DoSetup(c: TestConfig, tools: JavaConf.Toolchain, studentDir: string): bool {
    match c
    case JavaTest(j) => JavaConf.DoSetup(tools, studentDir)
    case PythonTest(p) => PythonConf.DoSetup(p, studentDir)
  }

  function TargetDir(c: TestConfig): string {
    match c
    case JavaTest(j) => j.targetDir
    case PythonTest(p) => p.targetDir
  }

  function EnvVars(c: TestConfig, studentDir: string): map<string, string> {
    match c
    case JavaTest(j) => JavaConf.EnvVars(j, studentDir)
    case PythonTest(p) => PythonConf.EnvVars(p, studentDir)
  }

  /** The command line of every backend: Java runs `java` with the main
      class first and the class path set to the student directory; Python
      runs the configured interpreter on the script inside the student
      directory, needs no setup and sets nothing. */
  lemma BackendCommandLines(c: TestConfig, dir: string)
    ensures c.JavaTest? ==>
      && Command(c, dir) == "java"
      && Args(c, dir) == [c.java.mainClass] + c.java.args
      && EnvVars(c, dir) == map["CLASSPATH" := dir]
    ensures c.PythonTest? ==>
      && Command(c, dir) == c.python.pythonVersion
      && Args(c, dir) == [dir + "/" + c.python.filename] + c.python.args
      && EnvVars(c, dir) == map[]
      && forall tools :: DoSetup(c, tools, dir)
  {
  }

  // The unit tests of conf/mod.rs, as lemmas.

  function JavaSection(name: string, mainClass: string, targetDir: string): map<string, Value> {
    map["name" := String(name), "tests_dir" := String("path/to/test"),
        "main_class" := String(mainClass), "target_dir" := String(targetDir)]
  }

  /** `[java]` with no timeout: 5 seconds, `java Main`. */
  lemma JavaDefaults()
    ensures var r := FromTomlValues(Table(map["java" := Table(JavaSection("Test A", "Main", "testa/sub"))]), PythonConf.Unix);
      && r.Ok?
      && Name(r.value) == "Test A"
      && TestTypeOf(r.value) == Directory("path/to/test")
      && Command(r.value, "directory") == "java"
      && Args(r.value, "directory") == ["Main"]
      && CaseTimeout(r.value) == Some(FromSecs(5))
      && TargetDir(r.value) == "testa/sub"
  {
    var section := Table(JavaSection("Test A", "Main", "testa/sub"));
    assert Get(section, "timeout") == None && Get(section, "args") == None;
    assert JavaConf.FromToml(section) == Ok(JavaConf.JavaConfig("Test A", "path/to/test", Some(FromSecs(5)), "Main", [], "testa/sub"));
    var doc := map["java" := section];
    assert doc.Keys == {"java"};
    FromTomlValuesDispatch(Table(doc), PythonConf.Unix);
  }

  /** `timeout = 1` gives one second. */
  lemma JavaTimeoutOne()
    ensures var r := FromTomlValues(Table(map["java" := Table(JavaSection("Test B", "MainB", "testb/sub")["timeout" := Integer(1)])]), PythonConf.Unix);
      && r.Ok?
      && Name(r.value) == "Test B"
      && TestTypeOf(r.value) == Directory("path/to/test")
      && Command(r.value, "home") == "java"
      && Args(r.value, "home") == ["MainB"]
      && CaseTimeout(r.value) == Some(FromSecs(1))
      && TargetDir(r.value) == "testb/sub"
  {
    var section := Table(JavaSection("Test B", "MainB", "testb/sub")["timeout" := Integer(1)]);
    assert Get(section, "timeout") == Some(Integer(1)) && Get(section, "args") == None;
    assert JavaConf.FromToml(section) == Ok(JavaConf.JavaConfig("Test B", "path/to/test", Some(FromSecs(1)), "MainB", [], "testb/sub"));
    var doc := map["java" := section];
    assert doc.Keys == {"java"};
    FromTomlValuesDispatch(Table(doc), PythonConf.Unix);
  }

  /** `timeout = false` gives no timeout. */
  lemma JavaTimeoutFalse()
    ensures var r := FromTomlValues(Table(map["java" := Table(JavaSection("Test C", "OtherClass", "testc/sub")["timeout" := Boolean(false)])]), PythonConf.Unix);
      && r.Ok?
      && Name(r.value) == "Test C"
      && TestTypeOf(r.value) == Directory("path/to/test")
      && Command(r.value, "home") == "java"
      && Args(r.value, "home") == ["OtherClass"]
      && CaseTimeout(r.value) == None
      && TargetDir(r.value) == "testc/sub"
  {
    var section := Table(JavaSection("Test C", "OtherClass", "testc/sub")["timeout" := Boolean(false)]);
    assert Get(section, "timeout") == Some(Boolean(false)) && Get(section, "args") == None;
    assert JavaConf.FromToml(section) == Ok(JavaConf.JavaConfig("Test C", "path/to/test", None, "OtherClass", [], "testc/sub"));
    var doc := map["java" := section];
    assert doc.Keys == {"java"};
    FromTomlValuesDispatch(Table(doc), PythonConf.Unix);
  }

  /** `[java]` without `args`: the main class alone. */
  lemma JavaNoArgs()
    ensures var r := FromTomlValues(Table(map["java" := Table(JavaSection("Test A", "Main", "d"))]), PythonConf.Unix);
      r.Ok? && Args(r.value, "test/dir") == ["Main"]
  {
    var section := Table(JavaSection("Test A", "Main", "d"));
    assert Get(section, "timeout") == None && Get(section, "args") == None;
    assert JavaConf.FromToml(section) == Ok(JavaConf.JavaConfig("Test A", "path/to/test", Some(FromSecs(5)), "Main", [], "d"));
    var doc := map["java" := section];
    assert doc.Keys == {"java"};
    FromTomlValuesDispatch(Table(doc), PythonConf.Unix);
  }

  /** `[java]` with `args = ["Hello,", "world!"]`: the main class, then the
      arguments. */
  lemma JavaArgs()
    ensures var r := FromTomlValues(Table(map["java" := Table(JavaSection("Test A", "Main", "d")["args" := Array([String("Hello,"), String("world!")])])]), PythonConf.Unix);
      r.Ok? && Args(r.value, "test/dir") == ["Main", "Hello,", "world!"]
  {
    var arr := [String("Hello,"), String("world!")];
    var section := Table(JavaSection("Test A", "Main", "d")["args" := Array(arr)]);
    assert Get(section, "timeout") == None;
    assert Get(section, "args") == Some(Array(arr));
    ConfFields.ArgListSpec(arr);
    assert ConfFields.ArgList(arr).value == ["Hello,", "world!"];
    assert JavaConf.FromToml(section) == Ok(JavaConf.JavaConfig("Test A", "path/to/test", Some(FromSecs(5)), "Main", ["Hello,", "world!"], "d"));
    var doc := map["java" := section];
    assert doc.Keys == {"java"};
    FromTomlValuesDispatch(Table(doc), PythonConf.Unix);
  }

  function PythonSection(targetDir: string): map<string, Value> {
    map["name" := String("Test A"), "tests_dir" := String("path/to/test"),
        "file" := String("source.py"), "target_dir" := String(targetDir)]
  }

  /** `[python]` with `version = "python3"`: that interpreter, the script
      inside the student directory, 5 seconds. */
  lemma PythonVersionGiven()
    ensures var r := FromTomlValues(Table(map["python" := Table(PythonSection("testa/pysub")["version" := String("python3")])]), PythonConf.Unix);
      && r.Ok?
      && Name(r.value) == "Test A"
      && TestTypeOf(r.value) == Directory("path/to/test")
      && Command(r.value, "home") == "python3"
      && Args(r.value, "home") == ["home/source.py"]
      && CaseTimeout(r.value) == Some(FromSecs(5))
      && TargetDir(r.value) == "testa/pysub"
  {
    var c := PythonConf.PythonConfig("Test A", "path/to/test", "python3", Some(FromSecs(5)), "source.py", [], "testa/pysub");
    assert PythonConf.Args(c, "home") == ["home/source.py"] by {
      assert "home" + "/" + "source.py" == "home/source.py";
    }
    var section := Table(PythonSection("testa/pysub")["version" := String("python3")]);
    assert Get(section, "timeout") == None && Get(section, "args") == None;
    assert Get(section, "version") == Some(String("python3"));
    assert PythonConf.FromToml(section, PythonConf.Unix) == Ok(c);
    var doc := map["python" := section];
    assert doc.Keys == {"python"};
    FromTomlValuesDispatch(Table(doc), PythonConf.Unix);
  }

  /** `[python]` without `args`: the script alone. */
  lemma PythonNoArgs()
    ensures var r := FromTomlValues(Table(map["python" := Table(PythonSection("d"))]), PythonConf.Unix);
      r.Ok? && Args(r.value, "dir") == ["dir/source.py"]
  {
    var c := PythonConf.PythonConfig("Test A", "path/to/test", "python3", Some(FromSecs(5)), "source.py", [], "d");
    assert PythonConf.Args(c, "dir") == ["dir/source.py"] by {
      assert "dir" + "/" + "source.py" == "dir/source.py";
    }
    var section := Table(PythonSection("d"));
    assert Get(section, "timeout") == None && Get(section, "version") == None && Get(section, "args") == None;
    assert PythonConf.FromToml(section, PythonConf.Unix) == Ok(c);
    var doc := map["python" := section];
    assert doc.Keys == {"python"};
    FromTomlValuesDispatch(Table(doc), PythonConf.Unix);
  }

  /** `[python]` with `args = ["Hello,", "world!"]` and no `version`. */
  lemma PythonArgs()
    ensures var r := FromTomlValues(Table(map["python" := Table(PythonSection("d")["args" := Array([String("Hello,"), String("world!")])])]), PythonConf.Unix);
      && r.Ok?
      && Command(r.value, "dir") == "python3"
      && Args(r.value, "dir") == ["dir/source.py", "Hello,", "world!"]
      && CaseTimeout(r.value) == Some(FromSecs(5))
  {
    var c := PythonConf.PythonConfig("Test A", "path/to/test", "python3", Some(FromSecs(5)), "source.py", ["Hello,", "world!"], "d");
    assert PythonConf.Args(c, "dir") == ["dir/source.py", "Hello,", "world!"] by {
      assert "dir" + "/" + "source.py" == "dir/source.py";
    }
    var arr := [String("Hello,"), String("world!")];
    var section := Table(PythonSection("d")["args" := Array(arr)]);
    assert Get(section, "timeout") == None && Get(section, "version") == None;
    assert Get(section, "args") == Some(Array(arr));
    ConfFields.ArgListSpec(arr);
    assert ConfFields.ArgList(arr).value == ["Hello,", "world!"];
    assert PythonConf.FromToml(section, PythonConf.Unix) == Ok(c);
    var doc := map["python" := section];
    assert doc.Keys == {"python"};
    FromTomlValuesDispatch(Table(doc), PythonConf.Unix);
  }
}
