/**
 * Running shell commands for hooks and shaping each run into a
 * HookExecutionResult. The child process is not modelled: what the shell
 * reports for a command is an input (an Outcome), one per command.
 */
module Shell {
  import opened Wrappers
  import opened Truncate

  const DefaultTruncateLimit: nat := 30_000

  /** The `code` property of the error execFile reports: undefined or null, a number, or anything else (a string such as "ENOENT"). */
  datatype ErrorCode = Absent | Numeric(n: int) | NonNumeric

  /** The error argument of the execFile callback: null, or an error carrying a code. */
  datatype ExecError = NoError | Failed(code: ErrorCode)

  /** The arguments execFile hands its callback when the child process ends. */
  datatype Completion = Completion(error: ExecError, stdout: Option<string>, stderr: Option<string>)

  /** What the shell helper resolves with. */
  datatype ShellOutput = ShellOutput(stdout: string, stderr: string, exitCode: int)

  /** How awaiting the shell helper ends: it resolves from the callback, or it throws with a message. */
  datatype Outcome = Completed(completion: Completion) | Threw(message: string)

  /** The result record of one command; absent fields are None. */
  datatype HookExecutionResult = HookExecutionResult(
    hookId: string,
    success: bool,
    exitCode: Option<int>,
    stdout: Option<string>,
    stderr: Option<string>,
    error: Option<string>)

  /** The `commands` argument: one command string, or a list of them. */
  datatype Commands = Single(command: string) | Many(list: seq<string>)

  /**
   * The shape every result has: either a completed run (exit code, both
   * streams, no error, success exactly when the exit code is 0) or a failed
   * execution (an error, none of the other three fields, no success).
   */
  predicate WellFormed(r: HookExecutionResult) {
    && (r.error.Some? <==> (r.exitCode.None? && r.stdout.None? && r.stderr.None?))
    && (r.exitCode.Some? <==> r.stdout.Some?)
    && (r.exitCode.Some? <==> r.stderr.Some?)
    && (r.error.Some? ==> !r.success)
    && (r.exitCode.Some? ==> (r.success <==> r.exitCode.value == 0))
  }

  /** `error?.code ?? 0`, then 1 for a code that is not a number. */
  function ExitCodeOf(error: ExecError): (code: int)
    ensures code == 0 <==> error in {NoError, Failed(Absent), Failed(Numeric(0))}
    ensures error.Failed? && error.code.Numeric? ==> code == error.code.n
    ensures error == Failed(NonNumeric) ==> code == 1
  {
    match error
    case NoError => 0
    case Failed(Absent) => 0
    case Failed(Numeric(n)) => n
    case Failed(NonNumeric) => 1
  }

  /**
   * `executeShellCommand` once the callback has run: normalise the exit code,
   * default missing streams to "". The source writes `stdout || ""`; `GetOr("")`
   * gives the same value because "" is the only falsy string.
   */
  function ExecuteShellCommand(c: Completion): (out: ShellOutput)
    ensures c.error == NoError ==> out.exitCode == 0
    ensures c.error.Failed? && c.error.code.Numeric? ==> out.exitCode == c.error.code.n
    ensures c.error == Failed(NonNumeric) ==> out.exitCode == 1
    ensures c.error == Failed(Absent) ==> out.exitCode == 0
    ensures out.stdout == Text(c.stdout) && out.stderr == Text(c.stderr)
  {
    ShellOutput(c.stdout.GetOr(""), c.stderr.GetOr(""), ExitCodeOf(c.error))
  }

  /** The limit in force: `options?.truncateOutput ?? DEFAULT_TRUNCATE_LIMIT`. */
  function EffectiveLimit(truncateOutput: Option<nat>): (limit: nat)
    ensures truncateOutput.Some? ==> limit == truncateOutput.value
    ensures truncateOutput.None? ==> limit == 30000
  {
    truncateOutput.GetOr(DefaultTruncateLimit)
  }

  /** The body of the try/catch that turns one outcome into a result tagged `hookId`. */
  function ShapeResult(hookId: string, outcome: Outcome, limit: nat): (r: HookExecutionResult)
    ensures r.hookId == hookId
    ensures WellFormed(r)
    ensures r.success <==> outcome.Completed? && ExitCodeOf(outcome.completion.error) == 0
  {
    match outcome
    case Threw(message) => HookExecutionResult(hookId, false, None, None, None, Some(message))
    case Completed(c) =>
      var result := ExecuteShellCommand(c);
      var stdout := TruncateText(Some(result.stdout), limit);
      var stderr := TruncateText(Some(result.stderr), limit);
      // `result.exitCode ?? 0`: the helper always reports a number, so the default never applies.
      var exitCode := result.exitCode;
      HookExecutionResult(hookId, exitCode == 0, Some(exitCode), Some(stdout), Some(stderr), None)
  }

  /** `executeCommand`: one command, its result tagged "command". */
  function ExecuteCommand(outcome: Outcome, truncateOutput: Option<nat>): (r: HookExecutionResult)
    ensures r.hookId == "command"
    ensures WellFormed(r)
    ensures r.success <==> outcome.Completed? && ExitCodeOf(outcome.completion.error) == 0
  {
    ShapeResult("command", outcome, EffectiveLimit(truncateOutput))
  }

  /** `Array.isArray(commands) ? commands : [commands]`. */
  function CommandArray(commands: Commands): (commandArray: seq<string>)
    ensures commands.Single? ==> commandArray == [commands.command]
    ensures commands.Many? ==> commandArray == commands.list
  {
    match commands
    case Single(command) => [command]
    case Many(commandList) => commandList
  }

  /**
   * `executeCommands`: run the commands one after another, pushing one result
   * per command whatever the earlier ones did. `outcomes[i]` is what the shell
   * reports for the i-th command.
   */
  method ExecuteCommands(commands: Commands, hookId: string, truncateOutput: Option<nat>, outcomes: seq<Outcome>)
    returns (results: seq<HookExecutionResult>)
    requires |outcomes| == |CommandArray(commands)|
    ensures |results| == |CommandArray(commands)|
    ensures commands.Single? ==> results == [ShapeResult(hookId, outcomes[0], EffectiveLimit(truncateOutput))]
    ensures forall i :: 0 <= i < |results| ==> results[i] == ShapeResult(hookId, outcomes[i], EffectiveLimit(truncateOutput))
    ensures forall i :: 0 <= i < |results| ==> results[i] == ExecuteCommand(outcomes[i], truncateOutput).(hookId := hookId)
    ensures forall i :: 0 <= i < |results| ==> results[i].hookId == hookId && WellFormed(results[i])
  {
    var truncateLimit := EffectiveLimit(truncateOutput);
    var commandArray := CommandArray(commands);
    results := [];
    for k := 0 to |commandArray|
      invariant |results| == k
      invariant forall i :: 0 <= i < k ==> results[i] == ShapeResult(hookId, outcomes[i], truncateLimit)
    {
      var outcome := outcomes[k];
      results := results + [ShapeResult(hookId, outcome, truncateLimit)];
    }
    forall i | 0 <= i < |results|
      ensures results[i] == ExecuteCommand(outcomes[i], truncateOutput).(hookId := hookId)
    {
      ShapeResultRetag(hookId, "command", outcomes[i], truncateLimit);
    }
  }

  /** The two copies of the result shaping differ only in the hook id they write. */
  lemma ShapeResultRetag(hookId: string, otherId: string, outcome: Outcome, limit: nat)
    ensures ShapeResult(otherId, outcome, limit).(hookId := hookId) == ShapeResult(hookId, outcome, limit)
  {
  }

  /** A completed run reports the normalised exit code and both streams truncated, and no error. */
  lemma CompletedRun(hookId: string, c: Completion, limit: nat)
    ensures ShapeResult(hookId, Completed(c), limit)
         == HookExecutionResult(hookId, ExitCodeOf(c.error) == 0, Some(ExitCodeOf(c.error)),
                                Some(TruncateText(c.stdout, limit)), Some(TruncateText(c.stderr, limit)), None)
  {
    assert TruncateText(Some(Text(c.stdout)), limit) == TruncateText(c.stdout, limit);
    assert TruncateText(Some(Text(c.stderr)), limit) == TruncateText(c.stderr, limit);
  }

  /** A thrown execution failure is reported with its message and nothing else. */
  lemma ThrownRun(hookId: string, message: string, limit: nat)
    ensures ShapeResult(hookId, Threw(message), limit)
         == HookExecutionResult(hookId, false, None, None, None, Some(message))
  {
  }

  /** The two ways a command can fail: the execution threw, or the command exited non-zero with its output kept. */
  lemma FailureKinds(hookId: string, outcome: Outcome, limit: nat)
    ensures var r := ShapeResult(hookId, outcome, limit);
      !r.success <==>
        (outcome.Threw? && r.error == Some(outcome.message))
        || (r.exitCode.Some? && r.exitCode.value != 0 && r.stdout.Some? && r.stderr.Some? && r.error.None?)
  {
  }

  /** Empty or missing output is reported as the empty string, never as absent. */
  lemma EmptyStreamsAreEmptyStrings(hookId: string, c: Completion, limit: nat)
    requires c.stdout in {None, Some("")} && c.stderr in {None, Some("")}
    ensures ShapeResult(hookId, Completed(c), limit).stdout == Some("")
    ensures ShapeResult(hookId, Completed(c), limit).stderr == Some("")
  {
  }

  /** Without an explicit limit, 30000 characters are kept. */
  lemma DefaultLimitApplies(outcome: Outcome)
    ensures ExecuteCommand(outcome, None) == ExecuteCommand(outcome, Some(30000))
  {
  }

  /** `executeCommands(["false", "true"], "h")`: two results tagged "h", the first failing, the second succeeding. */
  method FalseThenTrue() returns (results: seq<HookExecutionResult>)
    ensures |results| == 2
    ensures results[0].hookId == "h" && results[1].hookId == "h"
    ensures !results[0].success && results[0].exitCode == Some(1)
    ensures results[1].success && results[1].exitCode == Some(0)
  {
    var falseRan := Completed(Completion(Failed(Numeric(1)), Some(""), Some("")));
    var trueRan := Completed(Completion(NoError, Some(""), Some("")));
    results := ExecuteCommands(Many(["false", "true"]), "h", None, [falseRan, trueRan]);
  }
}
