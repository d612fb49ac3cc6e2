/**
 * The part of a JDBC connection the script runner talks to, reduced to what
 * it observes: the auto-commit flag, and the calls made on the connection
 * (statements executed, commits, auto-commit changes) kept as an event
 * trace. Which statements fail is fixed in advance by the set `failing`;
 * executing one of them is the `SQLException` thrown by `Statement.execute`.
 */
module Jdbc {

  /** One call the runner makes on the connection. */
  datatype Event =
    | Executed(sql: string, ok: bool) // `Statement.execute`; `ok` is false when it threw
    | Committed                       // `Connection.commit`
    | AutoCommitSet(on: bool)         // `Connection.setAutoCommit`

  class Connection {
    var autoCommit: bool
    var trace: seq<Event>
    const failing: set<string>

    constructor (autoCommit: bool, failing: set<string>)
      ensures this.autoCommit == autoCommit && this.failing == failing
      ensures trace == []
    {
      this.autoCommit := autoCommit;
      this.failing := failing;
      trace := [];
    }

    method SetAutoCommit(on: bool)
      modifies this
      ensures autoCommit == on
      ensures trace == old(trace) + [AutoCommitSet(on)]
    {
      autoCommit := on;
      trace := trace + [AutoCommitSet(on)];
    }

    method Commit()
      modifies this
      ensures autoCommit == old(autoCommit)
      ensures trace == old(trace) + [Committed]
    {
      trace := trace + [Committed];
    }

    /** Executes `sql` in a fresh statement; `ok` is false when the execution throws. */
    method Execute(sql: string) returns (ok: bool)
      modifies this
      ensures ok <==> sql !in failing
      ensures autoCommit == old(autoCommit)
      ensures trace == old(trace) + [Executed(sql, ok)]
    {
      ok := sql !in failing;
      trace := trace + [Executed(sql, ok)];
    }
  }

  /** The statement texts executed in `trace`, in order, whether they failed or not. */
  function ExecutedTexts(trace: seq<Event>): seq<string> {
    if trace == [] then []
    else (if trace[0].Executed? then [trace[0].sql] else []) + ExecutedTexts(trace[1..])
  }

  /** The number of commits in `trace`. */
  function Commits(trace: seq<Event>): nat {
    if trace == [] then 0
    else (if trace[0] == Committed then 1 else 0) + Commits(trace[1..])
  }

  /** The connection's auto-commit flag after `trace`, starting from `flag`. */
  function AutoCommitAfter(trace: seq<Event>, flag: bool): bool {
    if trace == [] then flag
    else AutoCommitAfter(trace[1..], if trace[0].AutoCommitSet? then trace[0].on else flag)
  }

  /** The three views of a trace of one event. */
  lemma OneEvent(e: Event, flag: bool)
    ensures ExecutedTexts([e]) == if e.Executed? then [e.sql] else []
    ensures Commits([e]) == if e == Committed then 1 else 0
    ensures AutoCommitAfter([e], flag) == if e.AutoCommitSet? then e.on else flag
  {
    assert [e][1..] == [];
  }

  /** The three views of a trace distribute over concatenation. */
  lemma {:induction false} TraceAppend(a: seq<Event>, b: seq<Event>, flag: bool)
    ensures ExecutedTexts(a + b) == ExecutedTexts(a) + ExecutedTexts(b)
    ensures Commits(a + b) == Commits(a) + Commits(b)
    ensures AutoCommitAfter(a + b, flag) == AutoCommitAfter(b, AutoCommitAfter(a, flag))
  {
    if a == [] {
      assert a + b == b;
    } else {
      assert (a + b)[0] == a[0];
      assert (a + b)[1..] == a[1..] + b;
      TraceAppend(a[1..], b, if a[0].AutoCommitSet? then a[0].on else flag);
    }
  }
}
