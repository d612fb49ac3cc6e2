/**
 * The line-oriented parsing done by the script runner's read loop. Each line
 * is trimmed and classified (`Classify`); body lines are accumulated into a
 * command buffer, and a line that ends a statement closes the buffer into one
 * statement text. `Statements` and `Pending` give, for a classified script,
 * the statement texts the loop hands to the connection and the text left in
 * the buffer when the script runs out.
 */
module ScriptParsing {
  import opened JavaText

  /** The runner's `delimiter` and `fullLineDelimiter` settings. */
  datatype Syntax = Syntax(delimiter: string, fullLineDelimiter: bool)

  /** What the read loop does with one line, with the text it appends. */
  datatype LineKind =
    | Ignored                  // a `--` or `//` comment, or a blank line
    | Body(text: string)       // the raw line, appended to the current statement
    | Terminator(head: string) // the raw line up to its last delimiter, closing the statement

  /** A trimmed line that is a comment or blank. */
  predicate IsSkippable(trimmed: string) {
    StartsWith(trimmed, "--") || |trimmed| < 1 || StartsWith(trimmed, "//")
  }

  /** A trimmed line that ends a statement, in the configured mode. */
  predicate EndsStatement(trimmed: string, syntax: Syntax) {
    || (!syntax.fullLineDelimiter && EndsWith(trimmed, syntax.delimiter))
    || (syntax.fullLineDelimiter && trimmed == syntax.delimiter)
  }

  /** Index just past the trimmed part of `line`. */
  function TrimEnd(line: string): (e: nat)
    ensures e <= |line|
  {
    LeadingEnd(line) + |Trim(line)|
  }

  /** A needle ending in a non-blank character does not occur across a blank tail starting at `e`. */
  lemma NoOccurrenceInBlankTail(line: string, d: string, e: nat)
    requires d != [] && !IsBlank(d[|d| - 1])
    requires e <= |line|
    requires forall k :: e <= k < |line| ==> IsBlank(line[k])
    ensures forall j :: e - |d| < j <= |line| ==> !OccursAt(line, d, j)
  {
    forall j | e - |d| < j <= |line| ensures !OccursAt(line, d, j) {
      if 0 <= j && j + |d| <= |line| {
        assert IsBlank(line[j + |d| - 1]);
        assert line[j..j + |d|][|d| - 1] == line[j + |d| - 1];
      }
    }
  }

  /** A suffix of the slice `line[i..e]` occurs in `line` just before `e`. */
  lemma SuffixOfSlice(line: string, i: nat, e: nat, d: string)
    requires i <= e <= |line|
    requires EndsWith(line[i..e], d)
    ensures |d| <= e - i
    ensures OccursAt(line, d, e - |d|)
  {
    assert line[i..e][e - i - |d|..] == line[e - |d|..e];
  }

  /**
   * A non-blank line that ends a statement has the delimiter just before its
   * trailing blanks, and no occurrence of a non-empty delimiter starts after
   * that point.
   */
  lemma ClosingDelimiterIsLast(line: string, syntax: Syntax)
    requires Trim(line) != []
    requires EndsStatement(Trim(line), syntax)
    ensures |syntax.delimiter| <= TrimEnd(line)
    ensures OccursAt(line, syntax.delimiter, TrimEnd(line) - |syntax.delimiter|)
    ensures syntax.delimiter != [] ==>
      LastIndexOf(line, syntax.delimiter) == TrimEnd(line) - |syntax.delimiter|
  {
    var d, t, i, e := syntax.delimiter, Trim(line), LeadingEnd(line), TrimEnd(line);
    assert EndsWith(t, d) by {
      if syntax.fullLineDelimiter {
        assert t[|t| - |t|..] == t;
      }
    }
    SuffixOfSlice(line, i, e, d);
    if d != [] {
      assert d[|d| - 1] == t[|t| - 1];
      NoOccurrenceInBlankTail(line, d, e);
    }
  }

  /**
   * The read loop's treatment of one line: trim it, skip comments and blank
   * lines, then test for the statement delimiter; a terminating line
   * contributes its raw text up to the last occurrence of the delimiter. The
   * third test repeats the first two and can never succeed.
   */
  function Classify(line: string, syntax: Syntax): LineKind {
    var trimmed := Trim(line);
    if StartsWith(trimmed, "--") then Ignored
    else if |trimmed| < 1 || StartsWith(trimmed, "//") then Ignored
    else if |trimmed| < 1 || StartsWith(trimmed, "--") then assert false; Ignored
    else if EndsStatement(trimmed, syntax) then
      ClosingDelimiterIsLast(line, syntax);
      Terminator(line[..LastIndexOf(line, syntax.delimiter)])
    else Body(line)
  }

  /** Which lines the read loop skips, which end a statement, and what each contributes. */
  lemma ClassifyLine(line: string, syntax: Syntax)
    ensures Classify(line, syntax) == Ignored <==> IsSkippable(Trim(line))
    ensures Classify(line, syntax).Terminator? <==>
      !IsSkippable(Trim(line)) && EndsStatement(Trim(line), syntax)
    ensures Classify(line, syntax).Body? ==> Classify(line, syntax).text == line
    ensures Classify(line, syntax).Terminator? ==>
      LastIndexOf(line, syntax.delimiter) >= 0 &&
      Classify(line, syntax).head == line[..LastIndexOf(line, syntax.delimiter)]
  {
    if Classify(line, syntax).Terminator? {
      ClosingDelimiterIsLast(line, syntax);
    }
  }

  /**
   * In full-line mode an empty delimiter ends no statement: only a blank
   * line trims to it, and blank lines are skipped first.
   */
  lemma EmptyFullLineDelimiterEndsNothing(line: string, syntax: Syntax)
    requires syntax.fullLineDelimiter && syntax.delimiter == ""
    ensures !Classify(line, syntax).Terminator?
  {
    ClassifyLine(line, syntax);
  }

  /**
   * Where a terminating line is cut. In full-line mode only the line's
   * leading blanks remain; in default mode with a non-empty delimiter,
   * everything before the closing delimiter remains, earlier occurrences of
   * the delimiter included; an empty delimiter keeps the whole line.
   */
  lemma CutPosition(line: string, syntax: Syntax)
    requires Trim(line) != [] && EndsStatement(Trim(line), syntax)
    ensures LastIndexOf(line, syntax.delimiter) >= 0
    ensures syntax.fullLineDelimiter ==>
      line[..LastIndexOf(line, syntax.delimiter)] == line[..LeadingEnd(line)]
    ensures !syntax.fullLineDelimiter && syntax.delimiter != [] ==>
      line[..LastIndexOf(line, syntax.delimiter)] + syntax.delimiter == line[..TrimEnd(line)]
    ensures !syntax.fullLineDelimiter && syntax.delimiter == [] ==>
      line[..LastIndexOf(line, syntax.delimiter)] == line
  {
    var d, e := syntax.delimiter, TrimEnd(line);
    ClosingDelimiterIsLast(line, syntax);
    if d == [] {
      LastIndexOfEmpty(line);
      assert line[..|line|] == line;
    } else if syntax.fullLineDelimiter {
      assert |d| == |Trim(line)|;
    } else {
      assert line[..e] == line[..e - |d|] + line[e - |d|..e];
    }
  }

  /** The classification of every line of a script. */
  function Classified(lines: seq<string>, syntax: Syntax): (kinds: seq<LineKind>)
    ensures |kinds| == |lines|
  {
    seq(|lines|, i requires 0 <= i < |lines| => Classify(lines[i], syntax))
  }

  /** The number of lines that end a statement. */
  function Terminators(kinds: seq<LineKind>): nat {
    if kinds == [] then 0
    else (if kinds[0].Terminator? then 1 else 0) + Terminators(kinds[1..])
  }

  /** No line ends a statement. */
  predicate NoTerminator(kinds: seq<LineKind>) {
    forall i :: 0 <= i < |kinds| ==> !kinds[i].Terminator?
  }

  /** Each body line, followed by one space, in order. */
  function BodyText(kinds: seq<LineKind>): string {
    if kinds == [] then ""
    else (if kinds[0].Body? then kinds[0].text + " " else "") + BodyText(kinds[1..])
  }

  /**
   * The statement texts executed for the classified lines `kinds` when the
   * buffer already holds `command`: one per terminating line.
   */
  function Statements(kinds: seq<LineKind>, command: string): (r: seq<string>)
    ensures |r| == Terminators(kinds)
  {
    if kinds == [] then []
    else match kinds[0]
      case Ignored => Statements(kinds[1..], command)
      case Body(text) => Statements(kinds[1..], command + text + " ")
      case Terminator(head) => [command + head + " "] + Statements(kinds[1..], "")
  }

  /** The text left in the buffer after `kinds`, starting from `command`. */
  function Pending(kinds: seq<LineKind>, command: string): string {
    if kinds == [] then command
    else match kinds[0]
      case Ignored => Pending(kinds[1..], command)
      case Body(text) => Pending(kinds[1..], command + text + " ")
      case Terminator(_) => Pending(kinds[1..], "")
  }

  /** The statement a line completes, given the buffer before it: at most one. */
  function Emitted(kind: LineKind, command: string): (r: seq<string>)
    ensures |r| == if kind.Terminator? then 1 else 0
  {
    if kind.Terminator? then [command + kind.head + " "] else []
  }

  /** The buffer after a line, given the buffer before it. */
  function Carried(kind: LineKind, command: string): string {
    match kind
    case Ignored => command
    case Body(text) => command + text + " "
    case Terminator(_) => ""
  }

  /** Before any line is read, nothing is emitted and every statement is still ahead. */
  lemma StatementsFromStart(kinds: seq<LineKind>)
    ensures Statements(kinds, "") == [] + Statements(kinds[0..], "")
  {
    assert kinds[0..] == kinds;
  }

  /** Reading line `i` emits its statement, if any, and leaves the rest to the lines after it. */
  lemma StatementsStep(kinds: seq<LineKind>, i: nat, command: string)
    requires i < |kinds|
    ensures Statements(kinds[i..], command)
         == Emitted(kinds[i], command) + Statements(kinds[i + 1..], Carried(kinds[i], command))
  {
    assert kinds[i..][0] == kinds[i];
    assert kinds[i..][1..] == kinds[i + 1..];
  }

  /** Reading line `i` moves its statement, if any, from the statements ahead to those emitted. */
  lemma StatementsAdvance(kinds: seq<LineKind>, i: nat, emitted: seq<string>, command: string)
    requires i < |kinds|
    ensures emitted + Statements(kinds[i..], command)
         == (emitted + Emitted(kinds[i], command)) + Statements(kinds[i + 1..], Carried(kinds[i], command))
  {
    StatementsStep(kinds, i, command);
    AppendAssociative(emitted, Emitted(kinds[i], command), Statements(kinds[i + 1..], Carried(kinds[i], command)));
  }

  /** The statements a whole script yields, starting from an empty buffer. */
  function ScriptStatements(lines: seq<string>, syntax: Syntax): seq<string> {
    Statements(Classified(lines, syntax), "")
  }

  /** Reading lines in two parts is reading them whole, the buffer carried across. */
  lemma {:induction false} StatementsAppend(a: seq<LineKind>, b: seq<LineKind>, command: string)
    ensures Statements(a + b, command) == Statements(a, command) + Statements(b, Pending(a, command))
    ensures Pending(a + b, command) == Pending(b, Pending(a, command))
  {
    if a == [] {
      assert a + b == b;
    } else {
      assert (a + b)[0] == a[0];
      assert (a + b)[1..] == a[1..] + b;
      match a[0]
      case Ignored => StatementsAppend(a[1..], b, command);
      case Body(text) => StatementsAppend(a[1..], b, command + text + " ");
      case Terminator(_) => StatementsAppend(a[1..], b, "");
    }
  }

  /** Lines without a terminator execute nothing and only add their body lines to the buffer. */
  lemma {:induction false} NoTerminatorOnlyBuffers(a: seq<LineKind>, command: string)
    requires NoTerminator(a)
    ensures Statements(a, command) == []
    ensures Pending(a, command) == command + BodyText(a)
  {
    if a != [] {
      assert !a[0].Terminator?;
      assert NoTerminator(a[1..]) by {
        forall i | 0 <= i < |a[1..]| ensures !a[1..][i].Terminator? {
          assert a[1..][i] == a[i + 1];
        }
      }
      var rest := BodyText(a[1..]);
      if a[0].Body? {
        var text := a[0].text;
        NoTerminatorOnlyBuffers(a[1..], command + text + " ");
        AppendAssociative(command, text, " ");
        AppendAssociative(command, text + " ", rest);
      } else {
        NoTerminatorOnlyBuffers(a[1..], command);
        assert BodyText(a) == "" + rest;
      }
    }
  }

  /** Text accumulated after the last terminating line is never executed. */
  lemma TrailingTextDropped(a: seq<LineKind>, b: seq<LineKind>, command: string)
    requires NoTerminator(b)
    ensures Statements(a + b, command) == Statements(a, command)
  {
    StatementsAppend(a, b, command);
    NoTerminatorOnlyBuffers(b, Pending(a, command));
  }

  /** The classification of a concatenated script is the concatenation of the classifications. */
  lemma ClassifiedAppend(a: seq<string>, b: seq<string>, syntax: Syntax)
    ensures Classified(a + b, syntax) == Classified(a, syntax) + Classified(b, syntax)
  {
    var whole, left, right := Classified(a + b, syntax), Classified(a, syntax), Classified(b, syntax);
    forall i | 0 <= i < |whole| ensures whole[i] == (left + right)[i] {
      if i < |a| {
        assert (a + b)[i] == a[i];
      } else {
        assert (a + b)[i] == b[i - |a|];
      }
    }
  }

  /** An ignored line changes neither the statements nor the buffer. */
  lemma {:induction false} IgnoredIsInert(a: seq<LineKind>, b: seq<LineKind>, command: string)
    ensures Statements(a + [Ignored] + b, command) == Statements(a + b, command)
    ensures Pending(a + [Ignored] + b, command) == Pending(a + b, command)
  {
    assert a + [Ignored] + b == a + ([Ignored] + b);
    StatementsAppend(a, [Ignored] + b, command);
    StatementsAppend(a, b, command);
    assert ([Ignored] + b)[1..] == b;
  }

  /**
   * A comment or blank line adds no text to any statement and executes
   * nothing: removing it from anywhere in a script changes neither the
   * statements nor the text left in the buffer.
   */
  lemma SkippedLineIsInert(a: seq<string>, line: string, b: seq<string>, syntax: Syntax)
    requires IsSkippable(Trim(line))
    ensures ScriptStatements(a + [line] + b, syntax) == ScriptStatements(a + b, syntax)
    ensures Pending(Classified(a + [line] + b, syntax), "") == Pending(Classified(a + b, syntax), "")
  {
    ClassifyLine(line, syntax);
    assert Classified([line], syntax) == [Ignored];
    ClassifiedAppend(a + [line], b, syntax);
    ClassifiedAppend(a, [line], syntax);
    ClassifiedAppend(a, b, syntax);
    IgnoredIsInert(Classified(a, syntax), Classified(b, syntax), "");
  }

  /** Index of the first line of the statement that line `i` belongs to. */
  function SegmentStart(kinds: seq<LineKind>, i: nat): (p: nat)
    requires i <= |kinds|
    ensures p <= i
    ensures p == 0 || kinds[p - 1].Terminator?
    ensures NoTerminator(kinds[p..i])
  {
    if i == 0 then 0
    else if kinds[i - 1].Terminator? then i
    else
      var p := SegmentStart(kinds, i - 1);
      assert NoTerminator(kinds[p..i]) by {
        forall k | 0 <= k < i - p ensures !kinds[p..i][k].Terminator? {
          assert kinds[p..i][k] == kinds[p + k];
          if k < i - 1 - p {
            assert kinds[p..i - 1][k] == kinds[p + k];
          }
        }
      }
      p
  }

  /** After a terminating line the buffer is empty: nothing carries into the next statement. */
  lemma BufferEmptyAfterTerminator(kinds: seq<LineKind>, p: nat)
    requires p <= |kinds|
    requires p == 0 || kinds[p - 1].Terminator?
    ensures Pending(kinds[..p], "") == ""
  {
    if p > 0 {
      assert kinds[..p] == kinds[..p - 1] + [kinds[p - 1]];
      StatementsAppend(kinds[..p - 1], [kinds[p - 1]], "");
    }
  }

  /** Cutting a sequence at two points and joining the three parts gives it back. */
  lemma SplitInThree<T>(xs: seq<T>, p: nat, i: nat)
    requires p <= i <= |xs|
    ensures xs == xs[..p] + (xs[p..i] + xs[i..])
  {
  }

  /** Concatenation of sequences is associative. */
  lemma AppendAssociative<T>(x: seq<T>, y: seq<T>, z: seq<T>)
    ensures x + (y + z) == x + y + z
  {
  }

  /**
   * A terminating line `i` whose segment starts at `p` (the buffer is empty
   * at `p` and no line between `p` and `i` terminates) splits the statements
   * into those before `p`, its own, and those after it.
   */
  lemma StatementsAroundTerminator(kinds: seq<LineKind>, p: nat, i: nat)
    requires p <= i < |kinds|
    requires kinds[i].Terminator?
    requires Pending(kinds[..p], "") == ""
    requires NoTerminator(kinds[p..i])
    ensures Statements(kinds, "")
      == Statements(kinds[..p], "") + [BodyText(kinds[p..i]) + kinds[i].head + " "] + Statements(kinds[i + 1..], "")
  {
    var a, s, rest := kinds[..p], kinds[p..i], kinds[i..];
    var body := BodyText(s);
    var stmt, after := body + kinds[i].head + " ", Statements(kinds[i + 1..], "");
    assert Statements(rest, body) == [stmt] + after by {
      assert rest[0] == kinds[i];
      assert rest[1..] == kinds[i + 1..];
    }
    assert Statements(s + rest, "") == [stmt] + after by {
      NoTerminatorOnlyBuffers(s, "");
      assert "" + body == body;
      StatementsAppend(s, rest, "");
    }
    assert Statements(kinds, "") == Statements(a, "") + ([stmt] + after) by {
      SplitInThree(kinds, p, i);
      StatementsAppend(a, s + rest, "");
    }
    AppendAssociative(Statements(a, ""), [stmt], after);
  }

  /** The lines of a statement before its terminator hold no terminator, so they add none to the count. */
  lemma TerminatorsBeforeSegment(kinds: seq<LineKind>, i: nat)
    requires i <= |kinds|
    ensures Terminators(kinds[..i]) == Terminators(kinds[..SegmentStart(kinds, i)])
  {
    var p := SegmentStart(kinds, i);
    var a, s := kinds[..p], kinds[p..i];
    NoTerminatorOnlyBuffers(s, Pending(a, ""));
    assert kinds[..i] == a + s;
    StatementsAppend(a, s, "");
  }

  /**
   * The statement closed by terminating line `i` is the one at position
   * "terminators before `i`", and its text is every body line since the
   * previous terminator, each followed by a space, then line `i`'s head,
   * then one space.
   */
  lemma StatementAtTerminator(kinds: seq<LineKind>, i: nat)
    requires i < |kinds|
    requires kinds[i].Terminator?
    ensures Terminators(kinds[..i]) < |Statements(kinds, "")|
    ensures Statements(kinds, "")[Terminators(kinds[..i])]
         == BodyText(kinds[SegmentStart(kinds, i)..i]) + kinds[i].head + " "
  {
    var p := SegmentStart(kinds, i);
    BufferEmptyAfterTerminator(kinds, p);
    StatementsAroundTerminator(kinds, p, i);
    TerminatorsBeforeSegment(kinds, i);
  }
}
