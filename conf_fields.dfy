/** The per-field checks that `JavaConfig::from_toml` and
    `PythonConfig::from_toml` both perform on a configuration section.
    Each check reads one key of the section and yields its value or the
    text of the error. */
module ConfFields {
  import opened Wrappers
  import opened Toml
  import opened Time
  import opened Strings

  const NESTED_ARGS: string := "Args may not contain nested structures"

  /** A required string field: `Missing "key" field` when absent, and
      `"key" field <rule>` when present with another kind of value. */
  function RequiredString(conf: Value, key: string, rule: string): Result<string, string> {
    match Get(conf, key)
    case Some(String(s)) => Ok(s)
    case None => Err("Missing \"" + key + "\" field")
    case Some(_) => Err("\"" + key + "\" field " + rule)
  }

  /** The error a field check reports, if any. */
  function ErrorOf<T>(r: Result<T, string>): Option<string> {
    if r.Err? then Some(r.error) else None
  }

  /** `i as u64` for a 64-bit signed integer: two's complement
      reinterpretation. */
  function AsU64(i: Int64): (r: nat)
    ensures r < 0x1_0000_0000_0000_0000
    ensures i >= 0 ==> r == i
    ensures i < 0 ==> r == i + 0x1_0000_0000_0000_0000
  {
    i % 0x1_0000_0000_0000_0000
  }

  /** The `timeout` field: a number of seconds, `true` or absent for the
      default, `false` for no timeout. */
  function TimeoutField(conf: Value, defaultSecs: nat, wrongKind: string): Result<Option<Duration>, string> {
    match Get(conf, "timeout")
    case Some(Integer(secs)) => Ok(Some(FromSecs(AsU64(secs))))
    case Some(Float(f)) => Ok(Some(New(f.asU64, f.fractionNanos)))
    case None => Ok(Some(FromSecs(defaultSecs)))
    case Some(Boolean(true)) => Ok(Some(FromSecs(defaultSecs)))
    case Some(Boolean(false)) => Ok(None)
    case Some(_) => Err(wrongKind)
  }

  predicate IsNested(v: Value) {
    v.Array? || v.Table?
  }

  /** The text one element of `args` becomes: `format!("{}", v)` for the
      scalars, the string itself for a string. */
  function ArgText(v: Value): (r: Result<string, string>)
    ensures r.Err? <==> IsNested(v)
  {
    match v
    case String(s) => Ok(s)
    case Array(_) => Err(NESTED_ARGS)
    case Table(_) => Err(NESTED_ARGS)
    case Integer(i) => Ok(IntToString(i))
    case Float(f) => Ok(f.display)
    case Boolean(b) => Ok(if b then "true" else "false")
    case Datetime(d) => Ok(d)
  }

  /** `arr.iter().map(ArgText).collect::<Result<Vec<_>, _>>()`: stops at the
      first element that has no text. */
  function ArgList(vs: seq<Value>): Result<seq<string>, string>
    decreases |vs|
  {
    if |vs| == 0 then Ok([])
    else
      var first :- ArgText(vs[0]);
      var rest :- ArgList(vs[1..]);
      Ok([first] + rest)
  }

  /** The list is accepted exactly when no element is nested, and then
      holds the text of every element in order. */
  lemma {:induction false} ArgListSpec(vs: seq<Value>)
    ensures ArgList(vs).Ok? <==> forall k :: 0 <= k < |vs| ==> !IsNested(vs[k])
    ensures ArgList(vs).Err? ==> ArgList(vs).error == NESTED_ARGS
    ensures ArgList(vs).Ok? ==>
      |ArgList(vs).value| == |vs| &&
      forall k :: 0 <= k < |vs| ==> ArgList(vs).value[k] == ArgText(vs[k]).value
    decreases |vs|
  {
    if |vs| > 0 {
      ArgListSpec(vs[1..]);
      if !IsNested(vs[0]) && ArgList(vs[1..]).Ok? {
        forall k | 0 <= k < |vs| ensures ArgList(vs).value[k] == ArgText(vs[k]).value {
          if k > 0 { assert vs[1..][k - 1] == vs[k]; }
        }
      }
      if ArgList(vs).Ok? {
        forall k | 0 <= k < |vs| ensures !IsNested(vs[k]) {
          if k > 0 { assert vs[1..][k - 1] == vs[k]; }
        }
      }
    }
  }

  /** The `args` field: absent for none, otherwise an array of scalars. */
  function ArgsField(conf: Value, notArray: string): Result<seq<string>, string> {
    match Get(conf, "args")
    case None => Ok([])
    case Some(Array(vs)) => ArgList(vs)
    case Some(_) => Err(notArray)
  }

  /** The TOML value a list of strings is written as. */
  function StringArray(args: seq<string>): (r: Value)
    ensures r.Array? && |r.elements| == |args|
    ensures forall k :: 0 <= k < |args| ==> r.elements[k] == String(args[k])
  {
    Array(seq(|args|, k requires 0 <= k < |args| => String(args[k])))
  }

  /** A list of strings written as a TOML array is read back unchanged. */
  lemma ArgsOfStringArray(args: seq<string>)
    ensures ArgList(StringArray(args).elements) == Ok(args)
  {
    var vs := StringArray(args).elements;
    ArgListSpec(vs);
    assert ArgList(vs).value == args;
  }

  /** The timeout field's TOML form: `false` for none, else whole seconds. */
  predicate WritableTimeout(t: Option<Duration>) {
    t.Some? ==> t.value.nanos % NANOS_PER_SEC == 0 && t.value.nanos / NANOS_PER_SEC <= I64_MAX
  }

  function TimeoutValue(t: Option<Duration>): Value
    requires WritableTimeout(t)
  {
    match t
    case None => Boolean(false)
    case Some(d) => Integer(d.nanos / NANOS_PER_SEC)
  }

  /** A timeout written in its TOML form is read back unchanged. */
  lemma TimeoutRoundTrip(conf: Value, t: Option<Duration>, defaultSecs: nat, wrongKind: string)
    requires WritableTimeout(t)
    requires Get(conf, "timeout") == Some(TimeoutValue(t))
    ensures TimeoutField(conf, defaultSecs, wrongKind) == Ok(t)
  {
    if t.Some? {
      var secs := t.value.nanos / NANOS_PER_SEC;
      assert FromSecs(secs).nanos == secs * NANOS_PER_SEC;
    }
  }
}
