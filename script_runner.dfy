/**
 * The script runner: it reads a script line by line, executes each statement
 * as soon as its terminating line is read, and manages auto-commit and
 * commit around the run. `ExecTrace`, `ExecOutcome`, `RunTrace` and
 * `ScriptTrace` say which calls a run makes on the connection and how it
 * ends; the methods of `ScriptRunner` are proved to make exactly those calls.
 */
module ScriptRunning {
  import opened ScriptParsing
  import opened Jdbc

  /** The builder's default statement delimiter. */
  const DefaultDelimiter: string := ";"

  /** The runner's settings that govern execution. */
  datatype Config = Config(stopOnError: bool, autoCommit: bool)

  /** How a run ends: normally, or with the `SQLException` of statement `sql` escaping. */
  datatype Outcome = Completed | Failed(sql: string)

  /** Index of the first statement that fails, or `|stmts|` when none does. */
  function FirstFailure(stmts: seq<string>, failing: set<string>): (k: nat)
    ensures k <= |stmts|
    ensures forall j :: 0 <= j < k ==> stmts[j] !in failing
    ensures k < |stmts| ==> stmts[k] in failing
  {
    if stmts == [] || stmts[0] in failing then 0
    else 1 + FirstFailure(stmts[1..], failing)
  }

  /** No statement of `done` stopped the run. */
  predicate RanThrough(done: seq<string>, failing: set<string>, stopOnError: bool) {
    !stopOnError || forall j :: 0 <= j < |done| ==> done[j] !in failing
  }

  /**
   * The calls made on the connection for the statements `stmts`, in order:
   * each is executed; a failure ends the run when `stopOnError` is set and
   * is otherwise only recorded; after each statement that does not end the
   * run, a commit follows when `commitEach` holds.
   */
  function ExecTrace(stmts: seq<string>, failing: set<string>, stopOnError: bool, commitEach: bool): seq<Event> {
    if stmts == [] then []
    else
      var ok := stmts[0] !in failing;
      if !ok && stopOnError then [Executed(stmts[0], false)]
      else [Executed(stmts[0], ok)] + (if commitEach then [Committed] else [])
           + ExecTrace(stmts[1..], failing, stopOnError, commitEach)
  }

  /** How executing `stmts` ends. */
  function ExecOutcome(stmts: seq<string>, failing: set<string>, stopOnError: bool): Outcome {
    if stmts == [] then Completed
    else if stopOnError && stmts[0] in failing then Failed(stmts[0])
    else ExecOutcome(stmts[1..], failing, stopOnError)
  }

  /** The commit that ends a run: only when it completes with the runner's auto-commit off. */
  function FinalCommit(outcome: Outcome, autoCommit: bool): seq<Event> {
    if outcome == Completed && !autoCommit then [Committed] else []
  }

  /**
   * The calls the private `runScript(Connection, Reader)` makes for a
   * script whose statements are `stmts`, on a connection whose auto-commit flag is `connAutoCommit`: the
   * statements, with a commit after each when the runner wants auto-commit
   * but the connection does not have it, and one final commit when the run
   * completes and the runner's auto-commit is off.
   */
  function RunTrace(stmts: seq<string>, cfg: Config, failing: set<string>, connAutoCommit: bool): seq<Event> {
    ExecTrace(stmts, failing, cfg.stopOnError, cfg.autoCommit && !connAutoCommit)
    + FinalCommit(ExecOutcome(stmts, failing, cfg.stopOnError), cfg.autoCommit)
  }

  /** The auto-commit change made before a public run: only when the flag differs. */
  function Switch(entryAutoCommit: bool, autoCommit: bool): seq<Event> {
    if entryAutoCommit != autoCommit then [AutoCommitSet(autoCommit)] else []
  }

  /**
   * The calls the public `runScript(Reader)` makes for a script whose
   * statements are `stmts`, on a connection whose auto-commit flag is `entryAutoCommit`: switch the flag
   * to the runner's setting if it differs, run the lines, then restore the
   * flag whatever happened.
   */
  function ScriptTrace(stmts: seq<string>, cfg: Config, failing: set<string>, entryAutoCommit: bool): seq<Event> {
    Switch(entryAutoCommit, cfg.autoCommit)
    + RunTrace(stmts, cfg, failing, cfg.autoCommit)
    + [AutoCommitSet(entryAutoCommit)]
  }

  /** Executing statements in two parts, when the first part does not end the run, is executing them whole. */
  lemma {:induction false} ExecAppend(done: seq<string>, more: seq<string>, failing: set<string>, stopOnError: bool, commitEach: bool)
    requires RanThrough(done, failing, stopOnError)
    ensures ExecTrace(done + more, failing, stopOnError, commitEach)
         == ExecTrace(done, failing, stopOnError, commitEach) + ExecTrace(more, failing, stopOnError, commitEach)
    ensures ExecOutcome(done + more, failing, stopOnError) == ExecOutcome(more, failing, stopOnError)
  {
    if done == [] {
      assert done + more == more;
    } else {
      assert (done + more)[0] == done[0];
      assert (done + more)[1..] == done[1..] + more;
      assert RanThrough(done[1..], failing, stopOnError) by {
        if stopOnError {
          forall j | 0 <= j < |done[1..]| ensures done[1..][j] !in failing {
            assert done[1..][j] == done[j + 1];
          }
        }
      }
      ExecAppend(done[1..], more, failing, stopOnError, commitEach);
      var head := [Executed(done[0], done[0] !in failing)] + (if commitEach then [Committed] else []);
      var a, b := ExecTrace(done[1..], failing, stopOnError, commitEach), ExecTrace(more, failing, stopOnError, commitEach);
      assert head + (a + b) == head + a + b;
    }
  }

  /** A failing statement under `stopOnError` ends the run: nothing after it is executed. */
  lemma ExecStops(done: seq<string>, sql: string, rest: seq<string>, failing: set<string>, commitEach: bool)
    requires RanThrough(done, failing, true)
    requires sql in failing
    ensures ExecTrace(done + ([sql] + rest), failing, true, commitEach)
         == ExecTrace(done, failing, true, commitEach) + [Executed(sql, false)]
    ensures ExecOutcome(done + ([sql] + rest), failing, true) == Failed(sql)
  {
    ExecAppend(done, [sql] + rest, failing, true, commitEach);
  }

  /** Statements that did not end the run leave it completed. */
  lemma ExecCompleted(done: seq<string>, failing: set<string>, stopOnError: bool)
    requires RanThrough(done, failing, stopOnError)
    ensures ExecOutcome(done, failing, stopOnError) == Completed
  {
    ExecAppend(done, [], failing, stopOnError, false);
    assert done + [] == done;
  }

  /** A statement that does not end the run is executed, followed by its commit when `commitEach` holds. */
  lemma ExecHead(stmts: seq<string>, failing: set<string>, stopOnError: bool, commitEach: bool)
    requires stmts != [] && (!stopOnError || stmts[0] !in failing)
    ensures ExecutedTexts(ExecTrace(stmts, failing, stopOnError, commitEach))
         == [stmts[0]] + ExecutedTexts(ExecTrace(stmts[1..], failing, stopOnError, commitEach))
    ensures Commits(ExecTrace(stmts, failing, stopOnError, commitEach))
         == (if commitEach then 1 else 0) + Commits(ExecTrace(stmts[1..], failing, stopOnError, commitEach))
  {
    var one := [Executed(stmts[0], stmts[0] !in failing)];
    var commit: seq<Event> := if commitEach then [Committed] else [];
    TraceAppend(one + commit, ExecTrace(stmts[1..], failing, stopOnError, commitEach), false);
    TraceAppend(one, commit, false);
    OneEvent(Executed(stmts[0], stmts[0] !in failing), false);
    if commitEach {
      OneEvent(Committed, false);
    }
  }

  /** Without a commit after each statement, executing statements commits nothing. */
  lemma {:induction false} ExecCommitsNothing(stmts: seq<string>, failing: set<string>, stopOnError: bool)
    ensures Commits(ExecTrace(stmts, failing, stopOnError, false)) == 0
  {
    if stmts != [] {
      if stopOnError && stmts[0] in failing {
        OneEvent(Executed(stmts[0], false), false);
      } else {
        ExecHead(stmts, failing, stopOnError, false);
        ExecCommitsNothing(stmts[1..], failing, stopOnError);
      }
    }
  }

  /**
   * With `stopOnError` off, every statement is executed, in order, a failure
   * being only recorded, and the run completes; commits follow each
   * statement exactly when `commitEach` holds.
   */
  lemma {:induction false} ContinueOnError(stmts: seq<string>, failing: set<string>, commitEach: bool)
    ensures ExecOutcome(stmts, failing, false) == Completed
    ensures ExecutedTexts(ExecTrace(stmts, failing, false, commitEach)) == stmts
    ensures Commits(ExecTrace(stmts, failing, false, commitEach)) == if commitEach then |stmts| else 0
  {
    if stmts != [] {
      ContinueOnError(stmts[1..], failing, commitEach);
      ExecHead(stmts, failing, false, commitEach);
      assert stmts == [stmts[0]] + stmts[1..];
    }
  }

  /**
   * With `stopOnError` on, the run fails with the first failing statement,
   * or completes when none fails.
   */
  lemma {:induction false} StopOnErrorOutcome(stmts: seq<string>, failing: set<string>)
    ensures var k := FirstFailure(stmts, failing);
      ExecOutcome(stmts, failing, true) == if k < |stmts| then Failed(stmts[k]) else Completed
  {
    if stmts != [] && stmts[0] !in failing {
      StopOnErrorOutcome(stmts[1..], failing);
    }
  }

  /**
   * With `stopOnError` on, the statements up to and including the first
   * failing one are executed, and no later one is.
   */
  lemma {:induction false} StopOnErrorExecutes(stmts: seq<string>, failing: set<string>, commitEach: bool)
    ensures FirstFailure(stmts, failing) < |stmts| ==>
      ExecutedTexts(ExecTrace(stmts, failing, true, commitEach)) == stmts[..FirstFailure(stmts, failing) + 1]
    ensures FirstFailure(stmts, failing) == |stmts| ==> ExecutedTexts(ExecTrace(stmts, failing, true, commitEach)) == stmts
  {
    if stmts != [] {
      if stmts[0] in failing {
        OneEvent(Executed(stmts[0], false), false);
        assert stmts[..1] == [stmts[0]];
      } else {
        var k, rest := FirstFailure(stmts, failing), FirstFailure(stmts[1..], failing);
        assert k == rest + 1;
        StopOnErrorExecutes(stmts[1..], failing, commitEach);
        ExecHead(stmts, failing, true, commitEach);
        var texts := ExecutedTexts(ExecTrace(stmts[1..], failing, true, commitEach));
        assert ExecutedTexts(ExecTrace(stmts, failing, true, commitEach)) == [stmts[0]] + texts;
        if k < |stmts| {
          assert texts == stmts[1..][..rest + 1];
          PrefixAfterHead(stmts, k + 1);
        } else {
          assert texts == stmts[1..];
          assert stmts == [stmts[0]] + stmts[1..];
        }
      }
    }
  }

  /** A non-empty prefix is the head followed by a prefix of the tail. */
  lemma PrefixAfterHead(s: seq<string>, n: nat)
    requires 0 < n <= |s|
    ensures s[..n] == [s[0]] + s[1..][..n - 1]
  {
    assert forall j :: 0 <= j < n ==> s[..n][j] == ([s[0]] + s[1..][..n - 1])[j];
  }

  /** With `stopOnError` on, a commit follows each statement before the first failing one exactly when `commitEach` holds. */
  lemma {:induction false} StopOnErrorCommits(stmts: seq<string>, failing: set<string>, commitEach: bool)
    ensures Commits(ExecTrace(stmts, failing, true, commitEach)) == if commitEach then FirstFailure(stmts, failing) else 0
  {
    if stmts != [] {
      if stmts[0] in failing {
        OneEvent(Executed(stmts[0], false), false);
      } else {
        StopOnErrorCommits(stmts[1..], failing, commitEach);
        ExecHead(stmts, failing, true, commitEach);
      }
    }
  }

  /** `ExecTrace` changes no auto-commit flag. */
  lemma {:induction false} ExecKeepsAutoCommit(stmts: seq<string>, failing: set<string>, stopOnError: bool, commitEach: bool, flag: bool)
    ensures AutoCommitAfter(ExecTrace(stmts, failing, stopOnError, commitEach), flag) == flag
  {
    if stmts != [] && (stmts[0] !in failing || !stopOnError) {
      var head := [Executed(stmts[0], stmts[0] !in failing)] + (if commitEach then [Committed] else []);
      ExecKeepsAutoCommit(stmts[1..], failing, stopOnError, commitEach, flag);
      TraceAppend(head, ExecTrace(stmts[1..], failing, stopOnError, commitEach), flag);
      TraceAppend([Executed(stmts[0], stmts[0] !in failing)], if commitEach then [Committed] else [], flag);
    }
  }

  /**
   * A public run's trace in its four parts. The runner's own setting is on
   * the connection during the run, so no commit follows each statement.
   */
  lemma ScriptTraceParts(stmts: seq<string>, cfg: Config, failing: set<string>, entryAutoCommit: bool)
    ensures ScriptTrace(stmts, cfg, failing, entryAutoCommit)
      == Switch(entryAutoCommit, cfg.autoCommit)
         + (ExecTrace(stmts, failing, cfg.stopOnError, false)
            + (FinalCommit(ExecOutcome(stmts, failing, cfg.stopOnError), cfg.autoCommit) + [AutoCommitSet(entryAutoCommit)]))
  {
    var sw, ex := Switch(entryAutoCommit, cfg.autoCommit), ExecTrace(stmts, failing, cfg.stopOnError, false);
    var fin := FinalCommit(ExecOutcome(stmts, failing, cfg.stopOnError), cfg.autoCommit);
    AppendAssociative(sw, ex, fin);
    AppendAssociative(sw, ex + fin, [AutoCommitSet(entryAutoCommit)]);
    AppendAssociative(ex, fin, [AutoCommitSet(entryAutoCommit)]);
  }

  /** The switch before a run and the final commit execute nothing, and change the flag only as they say. */
  lemma QuietParts(entryAutoCommit: bool, autoCommit: bool, outcome: Outcome, flag: bool)
    ensures ExecutedTexts(Switch(entryAutoCommit, autoCommit)) == [] && Commits(Switch(entryAutoCommit, autoCommit)) == 0
    ensures AutoCommitAfter(Switch(entryAutoCommit, autoCommit), entryAutoCommit) == autoCommit
    ensures ExecutedTexts(FinalCommit(outcome, autoCommit)) == []
    ensures Commits(FinalCommit(outcome, autoCommit)) == |FinalCommit(outcome, autoCommit)|
    ensures AutoCommitAfter(FinalCommit(outcome, autoCommit), flag) == flag
  {
    if entryAutoCommit != autoCommit {
      OneEvent(AutoCommitSet(autoCommit), entryAutoCommit);
    }
    if FinalCommit(outcome, autoCommit) != [] {
      OneEvent(Committed, flag);
    }
  }

  /**
   * The public run leaves the connection's auto-commit flag as it found it,
   * and holds it at the runner's setting while the script runs.
   */
  lemma ScriptRestoresAutoCommit(stmts: seq<string>, cfg: Config, failing: set<string>, entryAutoCommit: bool)
    ensures var t := ScriptTrace(stmts, cfg, failing, entryAutoCommit);
      && AutoCommitAfter(t, entryAutoCommit) == entryAutoCommit
      && AutoCommitAfter(t[..|t| - 1], entryAutoCommit) == cfg.autoCommit
  {
    var sw, ex := Switch(entryAutoCommit, cfg.autoCommit), ExecTrace(stmts, failing, cfg.stopOnError, false);
    var outcome := ExecOutcome(stmts, failing, cfg.stopOnError);
    var fin := FinalCommit(outcome, cfg.autoCommit);
    var restore := AutoCommitSet(entryAutoCommit);
    ScriptTraceParts(stmts, cfg, failing, entryAutoCommit);
    var t := ScriptTrace(stmts, cfg, failing, entryAutoCommit);
    assert t == sw + (ex + fin) + [restore];
    assert t[..|t| - 1] == sw + (ex + fin);
    QuietParts(entryAutoCommit, cfg.autoCommit, outcome, cfg.autoCommit);
    ExecKeepsAutoCommit(stmts, failing, cfg.stopOnError, false, cfg.autoCommit);
    TraceAppend(ex, fin, cfg.autoCommit);
    TraceAppend(sw, ex + fin, entryAutoCommit);
    TraceAppend(sw + (ex + fin), [restore], entryAutoCommit);
    OneEvent(restore, cfg.autoCommit);
  }

  /**
   * A trace made of a part and an execution that commit nothing, at most
   * one commit, and a last event that is not a commit, commits only there.
   */
  lemma CommitsInParts(sw: seq<Event>, ex: seq<Event>, fin: seq<Event>, last: Event)
    requires Commits(sw) == 0 && Commits(ex) == 0 && last != Committed
    requires fin == [] || fin == [Committed]
    ensures var t := sw + (ex + (fin + [last]));
      && Commits(t) == |fin|
      && (fin != [] ==> |t| >= 2 && t[|t| - 2] == Committed && Commits(t[..|t| - 2]) == 0)
  {
    OneEvent(last, false);
    OneEvent(Committed, false);
    TraceAppend(fin, [last], false);
    TraceAppend(ex, fin + [last], false);
    TraceAppend(sw, ex + (fin + [last]), false);
    TraceAppend(sw, ex, false);
    var t := sw + (ex + (fin + [last]));
    if fin != [] {
      assert t == (sw + ex) + [Committed, last];
      assert t[..|t| - 2] == sw + ex;
    }
  }

  /**
   * On a public run, `commit` is never called per statement; it is called
   * exactly once, after every statement and before the flag is restored,
   * when the run completes with auto-commit off, and never otherwise.
   */
  lemma ScriptCommits(stmts: seq<string>, cfg: Config, failing: set<string>, entryAutoCommit: bool)
    ensures var t := ScriptTrace(stmts, cfg, failing, entryAutoCommit);
      && Commits(t) == (if ExecOutcome(stmts, failing, cfg.stopOnError) == Completed && !cfg.autoCommit then 1 else 0)
      && (Commits(t) == 1 ==> |t| >= 2 && t[|t| - 2] == Committed && Commits(t[..|t| - 2]) == 0)
  {
    var outcome := ExecOutcome(stmts, failing, cfg.stopOnError);
    ScriptTraceParts(stmts, cfg, failing, entryAutoCommit);
    ExecCommitsNothing(stmts, failing, cfg.stopOnError);
    QuietParts(entryAutoCommit, cfg.autoCommit, outcome, cfg.autoCommit);
    CommitsInParts(Switch(entryAutoCommit, cfg.autoCommit), ExecTrace(stmts, failing, cfg.stopOnError, false),
      FinalCommit(outcome, cfg.autoCommit), AutoCommitSet(entryAutoCommit));
  }

  /**
   * The statements a public run executes: with `stopOnError` off, every
   * statement, and the run completes; with it on, those up to and including
   * the first failing one, and the run fails with that one.
   */
  lemma ScriptExecutes(stmts: seq<string>, cfg: Config, failing: set<string>, entryAutoCommit: bool)
    ensures var t, k := ScriptTrace(stmts, cfg, failing, entryAutoCommit), FirstFailure(stmts, failing);
      && (!cfg.stopOnError ==> ExecutedTexts(t) == stmts)
      && (!cfg.stopOnError ==> ExecOutcome(stmts, failing, false) == Completed)
      && (cfg.stopOnError && k < |stmts| ==> ExecutedTexts(t) == stmts[..k + 1])
      && (cfg.stopOnError && k < |stmts| ==> ExecOutcome(stmts, failing, true) == Failed(stmts[k]))
      && (cfg.stopOnError && k == |stmts| ==> ExecutedTexts(t) == stmts)
  {
    var sw, ex := Switch(entryAutoCommit, cfg.autoCommit), ExecTrace(stmts, failing, cfg.stopOnError, false);
    var outcome := ExecOutcome(stmts, failing, cfg.stopOnError);
    var fin := FinalCommit(outcome, cfg.autoCommit);
    var restore := AutoCommitSet(entryAutoCommit);
    ScriptTraceParts(stmts, cfg, failing, entryAutoCommit);
    QuietParts(entryAutoCommit, cfg.autoCommit, outcome, cfg.autoCommit);
    OneEvent(restore, cfg.autoCommit);
    TraceAppend(fin, [restore], cfg.autoCommit);
    TraceAppend(ex, fin + [restore], cfg.autoCommit);
    TraceAppend(sw, ex + (fin + [restore]), entryAutoCommit);
    assert ExecutedTexts(ScriptTrace(stmts, cfg, failing, entryAutoCommit)) == ExecutedTexts(ex);
    if cfg.stopOnError {
      StopOnErrorOutcome(stmts, failing);
      StopOnErrorExecutes(stmts, failing, false);
    } else {
      ContinueOnError(stmts, failing, false);
    }
  }

  /**
   * With `stopOnError` off, a public run over `lines` calls `execute` once
   * per line that ends a statement.
   */
  lemma ExecutesOncePerTerminator(lines: seq<string>, syntax: Syntax, cfg: Config, failing: set<string>, entryAutoCommit: bool)
    requires !cfg.stopOnError
    ensures |ExecutedTexts(ScriptTrace(ScriptStatements(lines, syntax), cfg, failing, entryAutoCommit))|
         == Terminators(Classified(lines, syntax))
  {
    ScriptExecutes(ScriptStatements(lines, syntax), cfg, failing, entryAutoCommit);
  }

  /** A run whose statement `sql` fails under `stopOnError` after `done` went through. */
  lemma StoppedRun(stmts: seq<string>, cfg: Config, failing: set<string>, connAutoCommit: bool,
                   start: seq<Event>, done: seq<string>, sql: string, rest: seq<string>)
    requires stmts == done + ([sql] + rest)
    requires cfg.stopOnError && sql in failing
    requires RanThrough(done, failing, true)
    ensures start + RunTrace(stmts, cfg, failing, connAutoCommit)
         == start + ExecTrace(done, failing, true, cfg.autoCommit && !connAutoCommit) + [Executed(sql, false)]
    ensures ExecOutcome(stmts, failing, true) == Failed(sql)
  {
    ExecStops(done, sql, rest, failing, cfg.autoCommit && !connAutoCommit);
    AppendAssociative(start, ExecTrace(done, failing, true, cfg.autoCommit && !connAutoCommit), [Executed(sql, false)]);
  }

  /** A run in which every statement went through. */
  lemma CompletedRun(stmts: seq<string>, cfg: Config, failing: set<string>, connAutoCommit: bool, start: seq<Event>)
    requires RanThrough(stmts, failing, cfg.stopOnError)
    ensures start + RunTrace(stmts, cfg, failing, connAutoCommit)
         == start + ExecTrace(stmts, failing, cfg.stopOnError, cfg.autoCommit && !connAutoCommit) + FinalCommit(Completed, cfg.autoCommit)
    ensures ExecOutcome(stmts, failing, cfg.stopOnError) == Completed
  {
    ExecCompleted(stmts, failing, cfg.stopOnError);
    AppendAssociative(start, ExecTrace(stmts, failing, cfg.stopOnError, cfg.autoCommit && !connAutoCommit), FinalCommit(Completed, cfg.autoCommit));
  }

  /** A script runner: a connection and the settings its builder sets. */
  class ScriptRunner {
    const connection: Connection
    const stopOnError: bool
    const autoCommit: bool
    const delimiter: string
    const fullLineDelimiter: bool

    constructor (connection: Connection, stopOnError: bool, autoCommit: bool, delimiter: string, fullLineDelimiter: bool)
      ensures this.connection == connection && this.stopOnError == stopOnError && this.autoCommit == autoCommit
      ensures this.delimiter == delimiter && this.fullLineDelimiter == fullLineDelimiter
    {
      this.connection := connection;
      this.stopOnError := stopOnError;
      this.autoCommit := autoCommit;
      this.delimiter := delimiter;
      this.fullLineDelimiter := fullLineDelimiter;
    }

    /** A runner built without a delimiter uses the default one. */
    constructor WithDefaultDelimiter(connection: Connection, stopOnError: bool, autoCommit: bool, fullLineDelimiter: bool)
      ensures this.connection == connection && this.stopOnError == stopOnError && this.autoCommit == autoCommit
      ensures this.delimiter == DefaultDelimiter && this.fullLineDelimiter == fullLineDelimiter
    {
      this.connection := connection;
      this.stopOnError := stopOnError;
      this.autoCommit := autoCommit;
      this.delimiter := DefaultDelimiter;
      this.fullLineDelimiter := fullLineDelimiter;
    }

    /** How the runner reads lines. */
    function LineSyntax(): Syntax {
      Syntax(delimiter, fullLineDelimiter)
    }

    /** How the runner executes and commits. */
    function Settings(): Config {
      Config(stopOnError, autoCommit)
    }

    /**
     * Public `runScript(Reader)`: sets the connection's auto-commit flag to
     * the runner's setting, runs the script, and restores the flag whether
     * the run completes or a statement's failure escapes.
     */
    method RunScript(lines: seq<string>) returns (outcome: Outcome)
      modifies connection
      ensures outcome == ExecOutcome(ScriptStatements(lines, LineSyntax()), connection.failing, stopOnError)
      ensures connection.trace
           == old(connection.trace) + ScriptTrace(ScriptStatements(lines, LineSyntax()), Settings(), connection.failing, old(connection.autoCommit))
      ensures connection.autoCommit == old(connection.autoCommit)
    {
      ghost var stmts := ScriptStatements(lines, LineSyntax());
      ghost var start := connection.trace;
      var originalAutoCommit := connection.autoCommit;
      if originalAutoCommit != autoCommit {
        connection.SetAutoCommit(autoCommit);
      }
      ghost var switched := connection.trace;
      assert switched == start + Switch(originalAutoCommit, autoCommit);
      outcome := RunLines(connection, lines);
      ghost var run := RunTrace(stmts, Settings(), connection.failing, autoCommit);
      assert connection.trace == switched + run;
      connection.SetAutoCommit(originalAutoCommit);
      AppendAssociative(start, Switch(originalAutoCommit, autoCommit), run);
      AppendAssociative(start, Switch(originalAutoCommit, autoCommit) + run, [AutoCommitSet(originalAutoCommit)]);
    }

    /**
     * Private `runScript(Connection, Reader)`: reads the lines in order,
     * skips comments and blank lines, accumulates body lines, and executes
     * the buffer at each terminating line; text left in the buffer at the
     * end is dropped. A failing statement ends the run when `stopOnError` is
     * set. A commit follows each statement when the runner wants auto-commit
     * but the connection lacks it, and one commit ends a completed run when
     * the runner's auto-commit is off.
     */
    method RunLines(conn: Connection, lines: seq<string>) returns (outcome: Outcome)
      modifies conn
      ensures outcome == ExecOutcome(ScriptStatements(lines, LineSyntax()), conn.failing, stopOnError)
      ensures conn.trace == old(conn.trace) + RunTrace(ScriptStatements(lines, LineSyntax()), Settings(), conn.failing, old(conn.autoCommit))
      ensures conn.autoCommit == old(conn.autoCommit)
    {
      ghost var kinds := Classified(lines, LineSyntax());
      ghost var stmts := ScriptStatements(lines, LineSyntax());
      ghost var start := conn.trace;
      ghost var commitEach := autoCommit && !conn.autoCommit;
      ghost var done: seq<string> := [];
      var command := "";
      var i := 0;
      StatementsFromStart(kinds);
      while i < |lines|
        invariant i <= |lines|
        invariant conn.autoCommit == old(conn.autoCommit)
        invariant stmts == done + Statements(kinds[i..], command)
        invariant RanThrough(done, conn.failing, stopOnError)
        invariant conn.trace == start + ExecTrace(done, conn.failing, stopOnError, commitEach)
      {
        var failed;
        command, failed, done := ReadLine(conn, lines, i, command, start, done, commitEach);
        if failed {
          return Failed(command);
        }
        i := i + 1;
      }
      assert stmts == done by {
        assert kinds[i..] == [];
      }
      CommitAtEnd(conn, stmts, start, old(conn.autoCommit));
      outcome := Completed;
    }

    /**
     * After the last line, a run that was not stopped commits once when the
     * runner's auto-commit setting is off.
     */
    method CommitAtEnd(conn: Connection, ghost stmts: seq<string>, ghost start: seq<Event>, ghost connAutoCommit: bool)
      requires RanThrough(stmts, conn.failing, stopOnError)
      requires conn.trace == start + ExecTrace(stmts, conn.failing, stopOnError, autoCommit && !connAutoCommit)
      modifies conn
      ensures conn.autoCommit == old(conn.autoCommit)
      ensures ExecOutcome(stmts, conn.failing, stopOnError) == Completed
      ensures conn.trace == start + RunTrace(stmts, Settings(), conn.failing, connAutoCommit)
    {
      CompletedRun(stmts, Settings(), conn.failing, connAutoCommit, start);
      ghost var executed := conn.trace;
      if !autoCommit {
        conn.Commit();
      }
      assert conn.trace == executed + FinalCommit(Completed, autoCommit);
    }

    /**
     * One pass of the read loop, on line `i`, with the statements emitted
     * so far (`done`) and the buffer `command`: what the script still
     * emits is accounted for, and the calls made so far are those
     * `ExecTrace` predicts for `done`. When the line's statement fails and
     * stops the run, the whole run's trace and outcome are settled.
     */
    method ReadLine(conn: Connection, lines: seq<string>, i: nat, command: string,
                    ghost start: seq<Event>, ghost done: seq<string>, ghost commitEach: bool)
      returns (next: string, failed: bool, ghost emitted: seq<string>)
      requires i < |lines|
      requires commitEach == (autoCommit && !conn.autoCommit)
      requires ScriptStatements(lines, LineSyntax()) == done + Statements(Classified(lines, LineSyntax())[i..], command)
      requires RanThrough(done, conn.failing, stopOnError)
      requires conn.trace == start + ExecTrace(done, conn.failing, stopOnError, commitEach)
      modifies conn
      ensures conn.autoCommit == old(conn.autoCommit)
      ensures !failed ==>
        ScriptStatements(lines, LineSyntax()) == emitted + Statements(Classified(lines, LineSyntax())[i + 1..], next)
      ensures !failed ==> RanThrough(emitted, conn.failing, stopOnError)
      ensures !failed ==> conn.trace == start + ExecTrace(emitted, conn.failing, stopOnError, commitEach)
      ensures failed ==> Failed(next) == ExecOutcome(ScriptStatements(lines, LineSyntax()), conn.failing, stopOnError)
      ensures failed ==>
        conn.trace == start + RunTrace(ScriptStatements(lines, LineSyntax()), Settings(), conn.failing, old(conn.autoCommit))
    {
      ghost var kinds, stmts := Classified(lines, LineSyntax()), ScriptStatements(lines, LineSyntax());
      var kind := KindOfLine(lines, i);
      next, failed := HandleLine(conn, kind, command, commitEach);
      if failed {
        StatementsStep(kinds, i, command);
        StoppedRun(stmts, Settings(), conn.failing, old(conn.autoCommit), start, done, next, Statements(kinds[i + 1..], ""));
        emitted := done;
        return;
      }
      emitted := done + Emitted(kind, command);
      StatementsAdvance(kinds, i, done, command);
      ExecAppend(done, Emitted(kind, command), conn.failing, stopOnError, commitEach);
      AppendAssociative(start, ExecTrace(done, conn.failing, stopOnError, commitEach),
        ExecTrace(Emitted(kind, command), conn.failing, stopOnError, commitEach));
    }

    /** The tests the loop body applies to line `i`: comment, blank, terminating or body line. */
    method KindOfLine(lines: seq<string>, i: nat) returns (kind: LineKind)
      requires i < |lines|
      ensures kind == Classified(lines, LineSyntax())[i]
    {
      kind := Classify(lines[i], Syntax(delimiter, fullLineDelimiter));
    }

    /**
     * The loop body for a line of kind `kind`: a body line is appended to
     * the buffer; a terminating line completes the buffer, which is
     * executed, followed by a commit when `commitEach` holds, and then
     * emptied; any other line is skipped. The run stops (`failed`) when the
     * statement fails under `stopOnError`; `next` is then the failed
     * statement.
     */
    method HandleLine(conn: Connection, kind: LineKind, command: string, ghost commitEach: bool)
      returns (next: string, failed: bool)
      requires commitEach == (autoCommit && !conn.autoCommit)
      modifies conn
      ensures conn.autoCommit == old(conn.autoCommit)
      ensures failed ==> kind.Terminator? && stopOnError && next == command + kind.head + " " && next in conn.failing
      ensures failed ==> conn.trace == old(conn.trace) + [Executed(next, false)]
      ensures !failed ==> next == Carried(kind, command)
      ensures !failed ==> RanThrough(Emitted(kind, command), conn.failing, stopOnError)
      ensures !failed ==>
        conn.trace == old(conn.trace) + ExecTrace(Emitted(kind, command), conn.failing, stopOnError, commitEach)
    {
      failed := false;
      match kind {
        case Ignored =>
          next := command;
        case Body(text) =>
          next := command + text + " ";
        case Terminator(head) =>
          next := command + head + " ";
          var ok := conn.Execute(next);
          if !ok && stopOnError {
            return next, true;
          }
          if autoCommit && !conn.autoCommit {
            conn.Commit();
          }
          assert [next][1..] == [];
          next := "";
      }
    }
  }
}
