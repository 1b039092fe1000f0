/** Running one test case (`test_output_against_strings`): spawn the
    command, write the input to its standard input, wait for it within the
    timeout, and compare what it printed with the expected output. The
    child process is a `Child` object whose operating-system answers are
    fixed by a `ChildScript`. */
module Process {
  import opened Wrappers
  import opened Time
  import Utf8
  import Strings

  type byte = Utf8.byte

  /** `TestAnswer`: how a submission did on one test case. */
  datatype TestAnswer =
    | Success
    | Failure
    | Timeout
    | FailWithMessage(message: string)
    | CompileError

  /** The errors the runner returns instead of an answer. */
  datatype RunError =
    | SpawnFailed    // `spawn()` failed
    | NoStdin        // "Error grabbing child stdin"
    | WriteFailed    // `write_all` to the child's stdin failed
    | WaitFailed     // `wait` or `wait_timeout` failed
    | NoStdout       // "Error grabbing child stdout"
    | ReadFailed     // reading the child's stdout failed
    | InvalidUtf8    // the child's stdout is not UTF-8

  /** The answer of one read on a pipe: some bytes, or an error. */
  datatype ReadStep = Bytes(data: seq<byte>) | ReadError

  /** How the operating system answers for the child of one spawn. */
  datatype ChildScript = ChildScript(
    spawns: bool,
    stdinPiped: bool,
    acceptsInput: bool,
    /** How long the child runs before it exits by itself; None when it
        runs until it is killed. */
    runsFor: Option<Duration>,
    waitWorks: bool,
    /** Whether the `wait` that reaps the child after a kill works. */
    reapWorks: bool,
    stdoutPiped: bool,
    /** The steps of the child's stdout up to end of file, given the bytes
        it received on stdin. */
    stdout: seq<byte> -> seq<ReadStep>)

  /** `wait_timeout(delay)` sees the exit when the child stops by itself
      within the delay. */
  predicate ExitsWithin(runsFor: Option<Duration>, delay: Duration) {
    runsFor.Some? && runsFor.value.nanos <= delay.nanos
  }

  datatype ChildState = Running | Killed | Reaped

  class Child {
    const script: ChildScript
    var state: ChildState
    /** The bytes written to the child's stdin so far. */
    var received: seq<byte>

    constructor Spawned(script: ChildScript)
      ensures this.script == script && state == Running && received == []
    {
      this.script := script;
      state := Running;
      received := [];
    }

    /** `write_all` on the child's stdin. */
    method WriteAll(bytes: seq<byte>) returns (r: Result<(), RunError>)
      requires script.stdinPiped
      modifies this`received
      ensures r == if script.acceptsInput then Ok(()) else Err(WriteFailed)
      ensures received == if r.Ok? then old(received) + bytes else old(received)
    {
      if script.acceptsInput {
        received := received + bytes;
        r := Ok(());
      } else {
        r := Err(WriteFailed);
      }
    }

    /** `wait_timeout(delay)`: Ok(true) when the child exited (and was
        reaped) within the delay, Ok(false) when it is still running. */
    method WaitTimeout(delay: Duration) returns (r: Result<bool, RunError>)
      requires state == Running
      modifies this`state
      ensures r == if script.waitWorks then Ok(ExitsWithin(script.runsFor, delay)) else Err(WaitFailed)
      ensures state == if r == Ok(true) then Reaped else Running
    {
      if !script.waitWorks {
        r := Err(WaitFailed);
      } else if ExitsWithin(script.runsFor, delay) {
        state := Reaped;
        r := Ok(true);
      } else {
        r := Ok(false);
      }
    }

    /** `kill`; its result is ignored by the caller. */
    method Kill()
      requires state == Running
      modifies this`state
      ensures state == Killed
    {
      state := Killed;
    }

    /** `wait`: blocks until the child has stopped, then reaps it. A child
        that never stops by itself blocks forever, so it must have been
        killed or must stop on its own. After a kill, whether the wait works
        is `reapWorks`; otherwise it is `waitWorks`. */
    method Wait() returns (r: Result<(), RunError>)
      requires state == Killed || (state == Running && (script.runsFor.Some? || !script.waitWorks))
      modifies this`state
      ensures r == if (if old(state) == Killed then script.reapWorks else script.waitWorks) then Ok(()) else Err(WaitFailed)
      ensures state == if r.Ok? then Reaped else old(state)
    {
      if (if state == Killed then script.reapWorks else script.waitWorks) {
        state := Reaped;
        r := Ok(());
      } else {
        r := Err(WaitFailed);
      }
    }
  }

  /** The bytes a sequence of steps delivers, or None when a read fails. */
  function StreamBytes(steps: seq<ReadStep>): Option<seq<byte>>
    decreases |steps|
  {
    if |steps| == 0 then Some([])
    else match (StreamBytes(steps[..|steps| - 1]), steps[|steps| - 1])
      case (Some(data), Bytes(more)) => Some(data + more)
      case _ => None
  }

  lemma {:induction false} StreamBytesFailsAfter(steps: seq<ReadStep>, i: nat)
    requires i < |steps| && steps[i].ReadError?
    ensures StreamBytes(steps) == None
    decreases |steps|
  {
    if i < |steps| - 1 {
      StreamBytesFailsAfter(steps[..|steps| - 1], i);
    }
  }

  /** What `read_from_stream` returns for a stream: its text, or the error
      of the first failing read, or InvalidUtf8. */
  function StreamText(steps: seq<ReadStep>): Result<string, RunError> {
    match StreamBytes(steps)
    case None => Err(ReadFailed)
    case Some(data) =>
      match Utf8.Decode(data)
      case None => Err(InvalidUtf8)
      case Some(text) => Ok(text)
  }

  /** `read_from_stream`: read to the end into a buffer, then decode it as
      UTF-8. */
  method ReadFromStream(steps: seq<ReadStep>) returns (r: Result<string, RunError>)
    ensures r == StreamText(steps)
  {
    var data: seq<byte> := [];
    var i := 0;
    while i < |steps|
      invariant 0 <= i <= |steps|
      invariant StreamBytes(steps[..i]) == Some(data)
    {
      match steps[i]
      case ReadError =>
        StreamBytesFailsAfter(steps, i);
        return Err(ReadFailed);
      case Bytes(more) =>
        assert steps[..i + 1][..i] == steps[..i];
        data := data + more;
      i := i + 1;
    }
    assert steps[..i] == steps;
    match Utf8.Decode(data)
    case None =>
      r := Err(InvalidUtf8);
    case Some(text) =>
      r := Ok(text);
  }

  /** The run returns, in this model: the only hang it represents is a
      child that, once it has its input, is waited for without a timeout
      while never stopping. A write to stdin that blocks is not represented
      (`acceptsInput` always answers), so this is a condition on the model's
      steps, not a guarantee that the program returns. */
  predicate Terminates(s: ChildScript, timeout: Option<Duration>) {
    !s.spawns || !s.stdinPiped || !s.acceptsInput || !s.waitWorks || timeout.Some? || s.runsFor.Some?
  }

  /** The answer a run gives, step by step in the order the runner takes
      them. A run that never returns gives no answer, so the answer is
      defined only for runs that terminate. */
  function Outcome(s: ChildScript, input: string, expected: string, timeout: Option<Duration>): Result<TestAnswer, RunError>
    requires Terminates(s, timeout)
  {
    if !s.spawns then Err(SpawnFailed)
    else if !s.stdinPiped then Err(NoStdin)
    else if !s.acceptsInput then Err(WriteFailed)
    else if !s.waitWorks then Err(WaitFailed)
    else if timeout.Some? && !ExitsWithin(s.runsFor, timeout.value) then Ok(Timeout)
    else if !s.stdoutPiped then Err(NoStdout)
    else
      match StreamText(s.stdout(Utf8.Encode(input)))
      case Err(e) => Err(e)
      case Ok(out) => Ok(if out == expected then Success else Failure)
  }

  /** `test_output_against_strings`: `os` says how the operating system
      answers for the child spawned from `cmd` and `args`. On every answer
      other than Timeout the child has been reaped. On a Timeout it was
      killed, then reaped if the reaping wait worked, and its output is
      never read. */
  method TestOutputAgainstStrings(os: (string, seq<string>) -> ChildScript, cmd: string, args: seq<string>,
      input: string, expected: string, timeout: Option<Duration>)
    returns (r: Result<TestAnswer, RunError>, child: Child?)
    requires Terminates(os(cmd, args), timeout)
    ensures r == Outcome(os(cmd, args), input, expected, timeout)
    ensures child == null <==> !os(cmd, args).spawns
    ensures child != null ==> child.script == os(cmd, args)
    ensures child != null && child.script.stdinPiped && child.script.acceptsInput ==> child.received == Utf8.Encode(input)
    ensures r.Ok? ==> child != null
    ensures r.Ok? && r.value != Timeout ==> child.state == Reaped
    ensures r == Ok(Timeout) ==> child.state == if child.script.reapWorks then Reaped else Killed
  {
    var script := os(cmd, args);
    if !script.spawns {
      return Err(SpawnFailed), null;
    }
    child := new Child.Spawned(script);
    if !child.script.stdinPiped {
      return Err(NoStdin), child;
    }
    var written := child.WriteAll(Utf8.Encode(input));
    if written.Err? {
      return Err(written.error), child;
    }
    match timeout {
      case Some(delay) =>
        var exited := child.WaitTimeout(delay);
        if exited.Err? {
          return Err(exited.error), child;
        }
        if !exited.value {
          child.Kill();
          var reaped := child.Wait();
          return Ok(Timeout), child;
        }
      case None =>
        var waited := child.Wait();
        if waited.Err? {
          return Err(waited.error), child;
        }
    }
    if !child.script.stdoutPiped {
      return Err(NoStdout), child;
    }
    assert child.received == Utf8.Encode(input);
    var text := ReadFromStream(child.script.stdout(child.received));
    if text.Err? {
      return Err(text.error), child;
    }
    r := Ok(if text.value == expected then Success else Failure);
  }

  /** Every step up to reading the output succeeds in time. */
  predicate Completes(s: ChildScript, timeout: Option<Duration>) {
    s.spawns && s.stdinPiped && s.acceptsInput && s.waitWorks && s.stdoutPiped &&
    (timeout.None? || ExitsWithin(s.runsFor, timeout.value))
  }

  /** The comparison is exact, byte for byte: a run passes exactly when
      every step succeeds in time and the child's stdout is the UTF-8
      encoding of the expected output (a trailing newline counts). */
  lemma SuccessIffSameBytes(s: ChildScript, input: string, expected: string, timeout: Option<Duration>)
    requires Terminates(s, timeout)
    ensures Outcome(s, input, expected, timeout) == Ok(Success) <==>
      Completes(s, timeout) && StreamBytes(s.stdout(Utf8.Encode(input))) == Some(Utf8.Encode(expected))
  {
    if Completes(s, timeout) {
      var steps := s.stdout(Utf8.Encode(input));
      match StreamBytes(steps)
      case None =>
      case Some(data) =>
        if data == Utf8.Encode(expected) {
          Utf8.DecodeEncode(expected);
        }
        match Utf8.Decode(data)
        case None =>
        case Some(out) =>
          if out == expected {
            Utf8.EncodeDecode(data, out);
          }
    }
  }

  /** A run fails exactly when every step succeeds in time, the output is
      valid UTF-8 and it differs from the expected output. */
  lemma FailureIffDifferentText(s: ChildScript, input: string, expected: string, timeout: Option<Duration>)
    requires Terminates(s, timeout)
    ensures Outcome(s, input, expected, timeout) == Ok(Failure) <==>
      Completes(s, timeout) && StreamText(s.stdout(Utf8.Encode(input))).Ok? &&
      StreamText(s.stdout(Utf8.Encode(input))).value != expected
  {
  }

  /** A timeout is reported exactly when the child got its input, the wait
      worked, and the child did not stop within the limit; without a limit
      there is never a timeout. */
  lemma TimeoutIffLate(s: ChildScript, input: string, expected: string, timeout: Option<Duration>)
    requires Terminates(s, timeout)
    ensures Outcome(s, input, expected, timeout) == Ok(Timeout) <==>
      s.spawns && s.stdinPiped && s.acceptsInput && s.waitWorks &&
      timeout.Some? && !ExitsWithin(s.runsFor, timeout.value)
  {
  }

  /** The runner answers only Success, Failure or Timeout: CompileError and
      FailWithMessage come from elsewhere. */
  lemma NeverGraded(s: ChildScript, input: string, expected: string, timeout: Option<Duration>)
    requires Terminates(s, timeout)
    ensures Outcome(s, input, expected, timeout).Ok? ==>
      Outcome(s, input, expected, timeout).value in [Success, Failure, Timeout]
  {
  }

  /** `echo` with some arguments, exiting after `runtime`: it ignores its
      stdin and prints its arguments separated by spaces, then a newline. */
  function EchoScript(words: seq<string>, runtime: Duration): ChildScript {
    ChildScript(true, true, true, Some(runtime), true, true, true,
      (received: seq<byte>) => [Bytes(Utf8.Encode(Strings.Join(words, " ") + "\n"))])
  }

  /** `sleep`: runs for the given time and prints nothing. */
  function SleepScript(runtime: Duration): ChildScript {
    ChildScript(true, true, true, Some(runtime), true, true, true, (received: seq<byte>) => [])
  }

  /** Running `echo` passes exactly when its line is the expected output. */
  lemma EchoOutcome(words: seq<string>, runtime: Duration, input: string, expected: string, timeout: Option<Duration>)
    requires timeout.None? || runtime.nanos <= timeout.value.nanos
    ensures Outcome(EchoScript(words, runtime), input, expected, timeout) ==
      Ok(if Strings.Join(words, " ") + "\n" == expected then Success else Failure)
  {
    var line := Strings.Join(words, " ") + "\n";
    var steps := EchoScript(words, runtime).stdout(Utf8.Encode(input));
    assert steps == [Bytes(Utf8.Encode(line))];
    assert steps[..|steps| - 1] == [];
    assert StreamBytes(steps[..|steps| - 1]) == Some([]);
    assert [] + Utf8.Encode(line) == Utf8.Encode(line);
    assert StreamBytes(steps) == Some(Utf8.Encode(line));
    Utf8.DecodeEncode(line);
  }

  /** A child still running at the limit is timed out, whatever it would
      have printed. */
  lemma SleepOutcome(runtime: Duration, input: string, expected: string, delay: Duration)
    requires delay.nanos < runtime.nanos
    ensures Outcome(SleepScript(runtime), input, expected, Some(delay)) == Ok(Timeout)
  {
  }

  /** The runner's own examples, with no limit or a one-second one:
      `echo "Hello, world"` passes against "Hello, world\n" ... */
  lemma EchoHelloPasses(runtime: Duration, timeout: Option<Duration>)
    requires runtime.nanos <= Time.FromSecs(1).nanos
    requires timeout == None || timeout == Some(Time.New(1, 0))
    ensures Outcome(EchoScript(["Hello, world"], runtime), "", "Hello, world\n", timeout) == Ok(Success)
  {
    assert Strings.Join(["Hello, world"], " ") == "Hello, world";
    EchoOutcome(["Hello, world"], runtime, "", "Hello, world\n", timeout);
  }

  /** ... and `echo "Goodbye, world"` fails against it ... */
  lemma EchoGoodbyeFails(runtime: Duration, timeout: Option<Duration>)
    requires runtime.nanos <= Time.FromSecs(1).nanos
    requires timeout == None || timeout == Some(Time.New(1, 0))
    ensures Outcome(EchoScript(["Goodbye, world"], runtime), "", "Hello, world\n", timeout) == Ok(Failure)
  {
    assert Strings.Join(["Goodbye, world"], " ") == "Goodbye, world";
    assert ("Goodbye, world" + "\n")[0] != "Hello, world\n"[0];
    EchoOutcome(["Goodbye, world"], runtime, "", "Hello, world\n", timeout);
  }

  /** ... while `sleep 10` under a 100-nanosecond limit times out. */
  lemma SleepTimesOut()
    ensures Outcome(SleepScript(Time.FromSecs(10)), "", "Hello, world\n", Some(Time.New(0, 100))) == Ok(Timeout)
  {
    SleepOutcome(Time.FromSecs(10), "", "Hello, world\n", Time.New(0, 100));
  }
}
