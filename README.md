# Shell command execution for opencode command hooks

This project models the deterministic part of the command runner in
`hooks/opencodehooks/src/execution/shell.ts`. The runner executes shell commands for hooks. It captures stdout,
stderr and the exit code of each command. It truncates oversized output and
never raises: every failure becomes a field of the result record.

The child process itself is not modelled. The model receives what the shell
reported for each command as an input value, an `Outcome`:

- `Completed(Completion(error, stdout, stderr))` holds the arguments the
  `execFile` callback receives. `error` is `NoError` (null) or
  `Failed(code)`, where `code` is `Absent` (undefined or null),
  `Numeric(n)` or `NonNumeric` (for example the string `"ENOENT"`). A
  missing stream is `None`.
- `Threw(message)` is an await that throws. The message is already
  extracted from the thrown value.

The modules follow the pieces of the source file:

- `Wrappers`: `Option`, which stands in for `undefined`. `GetOr` is the `??` operator; on strings it is also `s || ""`, since `""` is the only falsy string.
- `Decimal`: how `${limit}` writes a natural number, with the parse that inverts it.
- `Truncate`: `truncateText` and its notice
  `"\n\n[Output truncated: exceeded <limit> character limit]"`. It also has a
  parser that reads the limit back out of a notice.
- `Shell`: these pieces, in order:
  - exit-code and stream normalisation (`executeShellCommand` once its callback has run);
  - the result shaping that `executeCommand` and `executeCommands` both contain;
  - `executeCommand`;
  - `executeCommands`, an imperative loop that appends one result per command.

Three consequences of the code are worth stating:

- A spawn failure (for example, no `sh` available) does not produce the
  `error` form. `execFile` hands its callback an error whose `code` is a
  string such as `"ENOENT"`, so the helper resolves with exit code 1
  (shell.ts:186, 191). The result then has `success = false`, `exitCode = 1`
  and both streams. Only an await that throws produces the `error` form
  (`Threw` in the model).
- An error whose `code` is undefined or null (for example, a child killed by
  a signal) gives exit code 0 through `error?.code ?? 0` (shell.ts:186).
  `ExitCodeOf(Failed(Absent))` is therefore 0, and such a run counts as a
  success.
- `result.exitCode ?? 0` in the callers (shell.ts:68, 139) never applies: the
  helper always resolves with a number. The model carries the helper's code
  through unchanged.

## Model

| member | source | states |
|---|---|---|
| Decimal.NatToDecimal | hooks/opencodehooks/src/execution/shell.ts:29 | the rendering of the limit in the notice is a non-empty digit string with no leading zero; it has one digit exactly when the number is below 10 |
| Decimal.ParseNatToDecimal | hooks/opencodehooks/src/execution/shell.ts:29 | parsing the rendering of n gives n back |
| Decimal.NatToDecimalParse | hooks/opencodehooks/src/execution/shell.ts:29 | every canonical digit string is the rendering of the number it denotes, so rendering is a bijection onto canonical digit strings |
| Decimal.NatToDecimalInjective | hooks/opencodehooks/src/execution/shell.ts:29 | distinct limits are written differently |
| Truncate.TruncateText | hooks/opencodehooks/src/execution/shell.ts:24-32 | the result is at most limit characters exactly when the input (absent read as empty) is; a result within the limit is the input itself; the result is never longer than limit plus the notice; it always begins with the first min(length, limit) characters of the input |
| Truncate.ShortTextUnchanged | hooks/opencodehooks/src/execution/shell.ts:25-26 | absent or empty text gives ""; text no longer than the limit is returned unchanged |
| Truncate.TruncatedText | hooks/opencodehooks/src/execution/shell.ts:28-31 | text longer than the limit becomes exactly its first limit characters followed by the notice; the length is limit plus the notice length; the part after the limit parses back to the limit |
| Truncate.Notice | hooks/opencodehooks/src/execution/shell.ts:29 | the notice begins "\n\n[Output truncated: exceeded ", ends " character limit]", and between them holds a canonical digit string denoting the limit |
| Truncate.ParseNoticeOfNotice | hooks/opencodehooks/src/execution/shell.ts:29 | the notice names its limit: parsing the notice gives the limit back |
| Truncate.NoticeInjective | hooks/opencodehooks/src/execution/shell.ts:29 | distinct limits give distinct notices |
| Truncate.TruncateIdempotent | hooks/opencodehooks/src/execution/shell.ts:24-32 | truncating an already truncated stream with the same limit changes nothing |
| Shell.ExitCodeOf | hooks/opencodehooks/src/execution/shell.ts:186-191 | the exit code is 0 exactly for no error, an error without a code, or the numeric code 0; a numeric code is kept as is; a non-numeric code becomes 1 |
| Shell.ExecuteShellCommand | hooks/opencodehooks/src/execution/shell.ts:178-195 | no error gives exit code 0; a numeric code is kept; a non-numeric code becomes 1; an absent (undefined or null) code gives 0; a missing stdout or stderr becomes "" |
| Shell.ShapeResult | hooks/opencodehooks/src/execution/shell.ts:135-161 | the result carries the given hook id; it is well formed (error present exactly when exit code and both streams are absent; success exactly when the exit code is 0; no success with an error); success holds exactly when the run completed with normalised exit code 0 |
| Shell.CompletedRun | hooks/opencodehooks/src/execution/shell.ts:137-152 | a completed run reports success iff the normalised exit code is 0, that exit code, both streams truncated to the limit, and no error |
| Shell.ThrownRun | hooks/opencodehooks/src/execution/shell.ts:153-161 | a thrown execution failure gives success false and the error message, with no exit code and no output |
| Shell.FailureKinds | hooks/opencodehooks/src/execution/shell.ts:135-161 | a result fails exactly when either the execution threw and the error holds its message, or the command exited non-zero and both streams are present with no error |
| Shell.EmptyStreamsAreEmptyStrings | hooks/opencodehooks/src/execution/shell.ts:189-190 | empty or missing output is reported as the empty string, never as absent |
| Shell.ExecuteCommand | hooks/opencodehooks/src/execution/shell.ts:50-91 | the result of a single command is always tagged "command", is well formed, and succeeds exactly when the run completed with exit code 0 |
| Shell.DefaultLimitApplies | hooks/opencodehooks/src/execution/shell.ts:54 | with no explicit limit, the limit is 30000 characters |
| Shell.ShapeResultRetag | hooks/opencodehooks/src/execution/shell.ts:64-90 | the shaping in executeCommand and in executeCommands differ only in the hook id they write |
| Shell.EffectiveLimit | hooks/opencodehooks/src/execution/shell.ts:54 | an explicitly given limit is used as it is (0 included); without one the limit is 30000 |
| Shell.CommandArray | hooks/opencodehooks/src/execution/shell.ts:121 | a single command string becomes the one-element list holding it; a list is used as it is |
| Shell.ExecuteCommands | hooks/opencodehooks/src/execution/shell.ts:115-166 | a single string gives exactly one result, the shaping of its outcome; there is one result per command, in command order; the i-th result is the shaping of the i-th outcome under the caller's hook id, whatever earlier commands did; it equals executeCommand's result for that outcome with the hook id replaced; every result is well formed and carries the caller's hook id |
| Shell.FalseThenTrue | hooks/opencodehooks/src/execution/shell.ts:94-98 | running "false" then "true" under hook id "h" gives two results tagged "h", the first failing with exit code 1 and the second succeeding with exit code 0 |

## Left out

- The child process: `execFile("sh", ["-c", command])`, UTF-8 decoding and the operating system's exit status. What the shell reports is an input `Outcome` per command, because this is I/O.
- The async and Promise plumbing: the model keeps only the order in which commands run, one after another; what other code does while a command is awaited is not modelled.
- Shell.ExecuteCommands: the command list is read once when the call starts. The source iterates the caller's own array live across its awaits (shell.ts:121, 129, 135), so a caller that appends to or shortens that array while the call is pending changes which commands run and how many results come back; that aliasing is not modelled.
- Logging and the debug flag: they are side effects that do not change any result.
- Extracting a message from a thrown value (`err instanceof Error ? err.message : String(err)`): the message is an opaque string inside `Threw`.
- Truncate.TruncateText: lengths count characters of a Dafny string, not UTF-16 code units, and the limit is a natural number; negative or fractional limits follow JavaScript `slice` and number rules that are not modelled.
- Decimal.NatToDecimal: JavaScript writes numbers of 10^21 and above in exponent notation; the model always writes plain digits.
- Shell.ExitCodeOf: a numeric code is an unbounded integer; non-integer numbers such as NaN are not modelled.
