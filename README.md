# ScriptRunner: a verified model of the SQL script runner

`ScriptRunner` runs an SQL script over a JDBC connection. It reads the script
line by line and trims each line. It skips comments (`--`, `//`) and blank
lines. Other lines are buffered until a line ends a statement. A line ends a
statement when its trimmed text ends with the delimiter, or, in full-line
mode, when it equals the delimiter. The statement is then executed. A failing
statement stops the run when `stopOnError` is set; otherwise the failure is
only logged. Around the run, the public entry point switches the connection's
auto-commit flag to the runner's setting and restores it afterwards, and the
runner commits as its `autoCommit` setting asks.

The project has four modules:

- `JavaText` (`java_text.dfy`) models the `java.lang.String` operations the runner uses: `trim`, `startsWith`, `endsWith` and `lastIndexOf`. Each is characterised by its contract.
- `ScriptParsing` (`script_parsing.dfy`) holds the pure part:
  - `Classify` gives what the loop body does with one line;
  - `Statements` gives the statement texts a classified script yields, and `Pending` the text left in the buffer;
  - lemmas relate these to the source's promises.
- `Jdbc` (`jdbc.dfy`) is an abstract connection, modelled as a class. It has an auto-commit flag and a trace of the calls made on it. The set `failing` fixes in advance which statement texts throw `SQLException`.
- `ScriptRunning` (`script_runner.dfy`) has two parts:
  - the functions `ExecTrace`, `ExecOutcome`, `RunTrace` and `ScriptTrace` predict which calls a run makes and how it ends;
  - the class `ScriptRunner` is the imperative runner. Its `RunScript` (public `runScript(Reader)`) and `RunLines` (private `runScript(Connection, Reader)`) are proved to make exactly the predicted calls.

An `SQLException` escaping the run is modelled as the outcome `Failed(sql)`. `RunScript` restores the auto-commit flag on both outcomes, as the `finally` block does.

The loop body of the private `runScript` is split over three methods:

- `ReadLine` is one pass of the loop, with its bookkeeping.
- `KindOfLine` applies `Classify` to the line.
- `HandleLine` appends to the buffer, or executes and commits.

`CommitAtEnd` is the final commit. The split keeps each proof small. The calls they make on the connection are the ones the Java method makes, in the same order.

The delimiter is not required to be non-empty, because the source does not check it. With an empty delimiter in default mode, every line that is not skipped ends a statement, and its whole raw line is kept, because `lastIndexOf("")` is the line's length (`CutPosition`). With an empty delimiter in full-line mode, no line ends a statement, because only a blank line trims to the empty string and blank lines are skipped first (`EmptyFullLineDelimiterEndsNothing`); such a run executes nothing.

The repeated test at line 69 (`length() < 1 || startsWith("--")`) can never succeed, because lines 65 and 67 already caught both cases. `Classify` keeps it as a branch proved unreachable.

## Model

| member | source | states |
|---|---|---|
| `JavaText.Trim` | connectors/db/src/test/java/com/redislabs/riot/db/ScriptRunner.java:64 | The trimmed line is the slice of the line left after removing characters at or below U+0020 at both ends. It has a non-blank character at each end, and it is empty exactly when every character is blank. |
| `JavaText.LastIndexOf` | connectors/db/src/test/java/com/redislabs/riot/db/ScriptRunner.java:73 | The result is -1 exactly when the delimiter occurs nowhere. Otherwise the delimiter occurs at the result and at no later index. |
| `JavaText.LastIndexOfEmpty` | connectors/db/src/test/java/com/redislabs/riot/db/ScriptRunner.java:73 | The last occurrence of an empty delimiter is at the end of the line. |
| `ScriptParsing.ClassifyLine` | connectors/db/src/test/java/com/redislabs/riot/db/ScriptRunner.java:64-74 | A line is skipped exactly when its trimmed form starts with `--` or `//` or is empty. A line ends a statement exactly when it is not skipped and its trimmed form ends with the delimiter (default mode) or equals it (full-line mode). A body line contributes its raw text. A terminating line contributes its raw text up to the last delimiter, and that delimiter exists. |
| `ScriptParsing.ClosingDelimiterIsLast` | connectors/db/src/test/java/com/redislabs/riot/db/ScriptRunner.java:71-73 | The delimiter of a terminating line sits just before the line's trailing blanks. No later occurrence of a non-empty delimiter exists, so `lastIndexOf` finds that one. |
| `ScriptParsing.CutPosition` | connectors/db/src/test/java/com/redislabs/riot/db/ScriptRunner.java:71-73 | Where a terminating line is cut. In full-line mode only its leading blanks remain. In default mode, the kept text followed by the delimiter is the line up to its trailing blanks, so earlier delimiters on the line are kept. An empty delimiter keeps the whole line. |
| `ScriptParsing.EmptyFullLineDelimiterEndsNothing` | connectors/db/src/test/java/com/redislabs/riot/db/ScriptRunner.java:67-72 | In full-line mode an empty delimiter ends no statement: the equality test at line 72 only matches a blank line, which line 67 has already skipped. |
| `ScriptParsing.Statements` | connectors/db/src/test/java/com/redislabs/riot/db/ScriptRunner.java:60-119 | A classified script yields exactly one statement per terminating line. |
| `ScriptParsing.StatementsStep` | connectors/db/src/test/java/com/redislabs/riot/db/ScriptRunner.java:60-118 | Reading one line emits its statement (at most one) and passes the updated buffer to the lines after it. |
| `ScriptParsing.StatementsAppend` | connectors/db/src/test/java/com/redislabs/riot/db/ScriptRunner.java:60-119 | Reading a script in two parts, with the buffer carried across, yields the statements and the final buffer of reading it whole. |
| `ScriptParsing.NoTerminatorOnlyBuffers` | connectors/db/src/test/java/com/redislabs/riot/db/ScriptRunner.java:115-118 | Lines with no terminator execute nothing. They only append each body line and one space to the buffer. |
| `ScriptParsing.TrailingTextDropped` | connectors/db/src/test/java/com/redislabs/riot/db/ScriptRunner.java:119-122 | Lines after the last terminator add no statement: their buffered text is never executed. |
| `ScriptParsing.ClassifiedAppend` | connectors/db/src/test/java/com/redislabs/riot/db/ScriptRunner.java:60-64 | Each line is classified on its own, so classifying a joined script is joining the classifications. |
| `ScriptParsing.IgnoredIsInert` | connectors/db/src/test/java/com/redislabs/riot/db/ScriptRunner.java:65-70 | A skipped line anywhere changes neither the statements nor the buffer. |
| `ScriptParsing.SkippedLineIsInert` | connectors/db/src/test/java/com/redislabs/riot/db/ScriptRunner.java:64-70 | Removing a comment or blank line from anywhere in a script leaves the executed statements and the leftover buffer unchanged. |
| `ScriptParsing.BufferEmptyAfterTerminator` | connectors/db/src/test/java/com/redislabs/riot/db/ScriptRunner.java:108 | After a terminating line the buffer is empty, so no text carries into the next statement. |
| `ScriptParsing.StatementsAroundTerminator` | connectors/db/src/test/java/com/redislabs/riot/db/ScriptRunner.java:73-117 | A terminating line splits the script's statements into those before its segment, its own, and those after it. |
| `ScriptParsing.StatementAtTerminator` | connectors/db/src/test/java/com/redislabs/riot/db/ScriptRunner.java:73-117 | The statement closed by terminating line `i` comes at the position given by the number of earlier terminators. Its text is each body line since the previous terminator followed by a space, then line `i` cut at the delimiter, then one space. |
| `Jdbc.Connection.SetAutoCommit` | connectors/db/src/test/java/com/redislabs/riot/db/ScriptRunner.java:38 | Sets the flag and records the call. |
| `Jdbc.Connection.Commit` | connectors/db/src/test/java/com/redislabs/riot/db/ScriptRunner.java:91 | Records a commit and leaves the flag alone. |
| `Jdbc.Connection.Execute` | connectors/db/src/test/java/com/redislabs/riot/db/ScriptRunner.java:81-84 | Execution throws exactly for the failing texts, and every execution is recorded, failed or not. |
| `ScriptRunning.ExecAppend` | connectors/db/src/test/java/com/redislabs/riot/db/ScriptRunner.java:60-119 | When the first statements do not stop the run, executing statements in two parts makes the calls of executing them whole, and ends the same way. |
| `ScriptRunning.ExecStops` | connectors/db/src/test/java/com/redislabs/riot/db/ScriptRunner.java:80-81 | Under `stopOnError`, a failing statement is the last call made, and the run fails with it. |
| `ScriptRunning.ExecCompleted` | connectors/db/src/test/java/com/redislabs/riot/db/ScriptRunner.java:60-119 | Statements none of which stopped the run leave it completed. |
| `ScriptRunning.ExecHead` | connectors/db/src/test/java/com/redislabs/riot/db/ScriptRunner.java:80-92 | A statement that does not stop the run is executed, then committed when a commit follows each statement. |
| `ScriptRunning.ExecCommitsNothing` | connectors/db/src/test/java/com/redislabs/riot/db/ScriptRunner.java:90-92 | Without the per-statement commit, executing statements commits nothing. |
| `ScriptRunning.ContinueOnError` | connectors/db/src/test/java/com/redislabs/riot/db/ScriptRunner.java:82-88 | With `stopOnError` off, every statement is executed in order, failures only recorded, and the run completes. The number of commits is one per statement or zero, as the per-statement commit condition says. |
| `ScriptRunning.StopOnErrorOutcome` | connectors/db/src/test/java/com/redislabs/riot/db/ScriptRunner.java:80-81 | With `stopOnError` on, the run fails with the first failing statement, or completes when none fails. |
| `ScriptRunning.StopOnErrorExecutes` | connectors/db/src/test/java/com/redislabs/riot/db/ScriptRunner.java:80-81 | With `stopOnError` on, the statements up to and including the first failing one are executed, and no later one. |
| `ScriptRunning.StopOnErrorCommits` | connectors/db/src/test/java/com/redislabs/riot/db/ScriptRunner.java:90-92 | With `stopOnError` on, a commit follows each statement before the first failing one exactly when the per-statement commit applies, and none follows the failing one. |
| `ScriptRunning.ExecKeepsAutoCommit` | connectors/db/src/test/java/com/redislabs/riot/db/ScriptRunner.java:60-119 | The read loop never changes the connection's auto-commit flag. |
| `ScriptRunning.ScriptTraceParts` | connectors/db/src/test/java/com/redislabs/riot/db/ScriptRunner.java:34-44 | During a public run the connection holds the runner's own auto-commit setting, so no commit follows each statement. The trace is the switch, the executions, the final commit and the restore. |
| `ScriptRunning.QuietParts` | connectors/db/src/test/java/com/redislabs/riot/db/ScriptRunner.java:37-42 | The switch before a run and the final commit execute nothing, and change the flag only as they say. |
| `ScriptRunning.ScriptRestoresAutoCommit` | connectors/db/src/test/java/com/redislabs/riot/db/ScriptRunner.java:35-43 | A public run leaves the auto-commit flag as it found it, whether the run completes or fails. The flag holds the runner's setting until the restore. |
| `ScriptRunning.ScriptCommits` | connectors/db/src/test/java/com/redislabs/riot/db/ScriptRunner.java:90-122 | A public run calls `commit` exactly once when it completes with `autoCommit` off, and never otherwise. That one commit comes after every statement and just before the flag is restored. |
| `ScriptRunning.ScriptExecutes` | connectors/db/src/test/java/com/redislabs/riot/db/ScriptRunner.java:80-88 | A public run executes every statement when `stopOnError` is off, and completes. When `stopOnError` is on, it executes those up to and including the first failing one and fails with it. |
| `ScriptRunning.ExecutesOncePerTerminator` | connectors/db/src/test/java/com/redislabs/riot/db/ScriptRunner.java:60-119 | With `stopOnError` off, a public run calls `execute` once per terminating line. |
| `ScriptRunning.StoppedRun` | connectors/db/src/test/java/com/redislabs/riot/db/ScriptRunner.java:80-81 | A run whose statement fails under `stopOnError` makes no call after that execution, and fails with that statement. |
| `ScriptRunning.CompletedRun` | connectors/db/src/test/java/com/redislabs/riot/db/ScriptRunner.java:120-122 | A run that was not stopped completes, and ends with the final commit when `autoCommit` is off. |
| `ScriptRunning.ScriptRunner.constructor` | connectors/db/src/test/java/com/redislabs/riot/db/ScriptRunner.java:21-27 | The builder sets the connection, `stopOnError`, `autoCommit`, `delimiter` and `fullLineDelimiter`. |
| `ScriptRunning.ScriptRunner.WithDefaultDelimiter` | connectors/db/src/test/java/com/redislabs/riot/db/ScriptRunner.java:19-26 | A runner built without a delimiter uses `";"`. |
| `ScriptRunning.ScriptRunner.RunScript` | connectors/db/src/test/java/com/redislabs/riot/db/ScriptRunner.java:34-44 | Makes exactly the calls `ScriptTrace` predicts for the script's statements, and ends as `ExecOutcome` says. The connection's flag is left as found. |
| `ScriptRunning.ScriptRunner.RunLines` | connectors/db/src/test/java/com/redislabs/riot/db/ScriptRunner.java:56-123 | Makes exactly the calls `RunTrace` predicts for the statements `Statements` yields from the classified lines, and ends as `ExecOutcome` says. The flag is left alone. |
| `ScriptRunning.ScriptRunner.ReadLine` | connectors/db/src/test/java/com/redislabs/riot/db/ScriptRunner.java:60-118 | One pass of the loop. It moves line `i`'s statement, if any, from the statements still ahead to those made, and the calls so far are those predicted for the statements made. A stopping failure settles the whole run's calls and outcome. |
| `ScriptRunning.ScriptRunner.HandleLine` | connectors/db/src/test/java/com/redislabs/riot/db/ScriptRunner.java:73-117 | A body line is appended with a space, and a skipped line changes nothing. A terminating line's statement is executed, then committed when the runner wants auto-commit and the connection lacks it, and the buffer is emptied. A failure under `stopOnError` stops after the execution. |
| `ScriptRunning.ScriptRunner.CommitAtEnd` | connectors/db/src/test/java/com/redislabs/riot/db/ScriptRunner.java:120-122 | A run that was not stopped ends with one commit when `autoCommit` is off, and completes. |

## Left out

- The result-set loop (lines 94-106) is not modelled, so `hasResults` has no effect in the model. The loop keeps none of the values it reads, and it does not touch the buffer or the commits.
- HandleLine, ExecTrace: under `stopOnError`, a statement that returns a result set with at least one column makes the loop call `getColumnLabel(0)` and `getString(0)` (lines 99 and 103). JDBC numbers columns from 1, so a driver throws `SQLException` there. That exception escapes after the per-statement commit and ends the run. The model instead carries on with the next line, because whether a statement returns rows is not part of the abstract connection.
- Jdbc.Connection.SetAutoCommit: JDBC commits the open transaction when `setAutoCommit` changes the mode. The model records only the flag change. So a run stopped under `stopOnError`, with `autoCommit` off and the connection's flag on at entry, has its earlier statements committed by the restore at line 42. `ScriptCommits` counts only explicit `commit` calls and does not see that commit.
- Logging (lines 66, 77, 86) is not modelled.
- `Thread.yield()` (line 114) is not modelled.
- `createStatement` and the swallowed exception of `statement.close()` (lines 75, 109-113) are not modelled: every statement is executed on a fresh statement that cannot fail to open or close.
- Reading lines with `LineNumberReader` is not modelled, and neither is its `IOException`: the script is given as the sequence of lines `readLine` would return.
- `SQLException` from `getAutoCommit`, `setAutoCommit` and `commit` is not modelled: only `execute` can fail, as fixed by the set `failing`.
- Lazy creation of the buffer and its reset to `null` (lines 57, 61-62, 108) are modelled as an empty buffer, since an absent buffer and an empty one behave alike.
- Java strings are modelled as sequences of Unicode scalar values (Dafny's `char`), not of UTF-16 code units. A string holding an unpaired surrogate has no model. `LastIndexOf` counts scalar values where Java counts code units; the index is only used to cut the line, so the cut text is the same. `StringBuffer` appends are sequence concatenation.
- The JDBC driver is abstract: whether a statement fails depends only on its text, through the set `failing`.
- The rest of the repository (readers, writers, commands, the CLI) is not part of this model.
