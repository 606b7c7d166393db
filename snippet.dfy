/**
 * The source excerpt printed under a reported problem (`PrintSourceSnippet`
 * and the excerpt in `DisplayDiagnostics`): up to two lines either side of
 * the problem's line, the problem's line marked, and a row of carets under
 * it. Only the line window and the caret arithmetic are modelled; the
 * padding, colours and console output are not.
 */
module Snippet {
  import opened Syntax

  function Max(a: int, b: int): int { if a < b then b else a }

  function Min(a: int, b: int): int { if a < b then a else b }

  /** `Math.Max(0, line - 2)`: the first line of the window. */
  function WindowStart(line: int): int { Max(0, line - 2) }

  /** `Math.Min(lines.Length - 1, line + 2)`: the last line of the window. */
  function WindowEnd(line: int, lineCount: nat): int { Min(lineCount - 1, line + 2) }

  /** `Math.Max(1, end.Character - start.Character)`: at least one caret. */
  function CaretLength(startChar: int, endChar: int): (n: nat)
    ensures n >= 1
    ensures n >= endChar - startChar
    ensures n == 1 || n == endChar - startChar
  {
    if endChar - startChar < 1 then 1 else endChar - startChar
  }

  /** `Math.Max(0, start.Character)`: the carets' indentation. */
  function HighlightColumn(c: int): (n: nat)
    ensures n == c || (c < 0 && n == 0)
  {
    if c < 0 then 0 else c
  }

  /** A printed row: a numbered source line (marked when it is the problem's line), or the carets. */
  datatype Row = SourceRow(number: int, marked: bool, text: string) | CaretRow(column: nat, length: nat)

  /** The rows printed for line `i` (0-based). */
  function RowsAt(lines: seq<string>, span: Span, i: int): seq<Row>
    requires 0 <= i < |lines|
  {
    [SourceRow(i + 1, i == span.startLine, lines[i])] +
    (if i == span.startLine then [CaretRow(HighlightColumn(span.startChar), CaretLength(span.startChar, span.endChar))] else [])
  }

  /** The rows printed for the `n` lines starting at line `from`. */
  function RowsFrom(lines: seq<string>, span: Span, from: int, n: nat): seq<Row>
    requires 0 <= from && (n > 0 ==> from + n <= |lines|)
  {
    if n == 0 then [] else RowsFrom(lines, span, from, n - 1) + RowsAt(lines, span, from + n - 1)
  }

  /** How many lines the window from `start` to `end` (inclusive) holds. */
  function WindowSize(start: int, end: int): nat {
    if end < start then 0 else end - start + 1
  }

  /** The whole excerpt for a problem at `span` in a file with `lines`. */
  function Excerpt(lines: seq<string>, span: Span): seq<Row> {
    var start := WindowStart(span.startLine);
    RowsFrom(lines, span, start, WindowSize(start, WindowEnd(span.startLine, |lines|)))
  }

  /** The printing loop, `for (i = startLine; i <= endLine; i++)`. */
  method RenderExcerpt(lines: seq<string>, span: Span) returns (rows: seq<Row>)
    ensures rows == Excerpt(lines, span)
  {
    var startLine := Max(0, span.startLine - 2);
    var endLine := Min(|lines| - 1, span.startLine + 2);
    rows := [];
    var i := startLine;
    while i <= endLine
      invariant startLine <= i && (i <= endLine + 1 || i == startLine)
      invariant rows == RowsFrom(lines, span, startLine, i - startLine)
      decreases endLine + 1 - i
    {
      rows := rows + [SourceRow(i + 1, i == span.startLine, lines[i])];
      if i == span.startLine {
        rows := rows + [CaretRow(HighlightColumn(span.startChar), CaretLength(span.startChar, span.endChar))];
      }
      i := i + 1;
    }
  }

  // ---------------------------------------------------------------------------
  // Properties
  // ---------------------------------------------------------------------------

  /**
   * What the rows for `n` lines from `from` hold: one source row per line,
   * each the file's own text and marked exactly on the problem's line, and
   * one caret row, right after the marked row, exactly when the problem's
   * line is among them.
   */
  lemma RowsFromShape(lines: seq<string>, span: Span, from: int, n: nat)
    requires 0 <= from && (n > 0 ==> from + n <= |lines|)
    ensures var rows := RowsFrom(lines, span, from, n); var line := span.startLine;
      (&& |rows| == n + (if from <= line < from + n then 1 else 0)
       && (forall k :: 0 <= k < |rows| && rows[k].SourceRow? ==>
             from <= rows[k].number - 1 < from + n && rows[k].text == lines[rows[k].number - 1] &&
             (rows[k].marked <==> rows[k].number - 1 == line))
       && (forall k :: 0 <= k < |rows| && rows[k].CaretRow? ==>
             0 < k && rows[k - 1].SourceRow? && rows[k - 1].marked &&
             rows[k] == CaretRow(HighlightColumn(span.startChar), CaretLength(span.startChar, span.endChar)))
       && ((exists k :: 0 <= k < |rows| && rows[k].CaretRow?) <==> from <= line < from + n))
  {
    RowsFromLength(lines, span, from, n);
    RowsFromSources(lines, span, from, n);
    RowsFromCarets(lines, span, from, n);
  }

  lemma {:induction false} RowsFromLength(lines: seq<string>, span: Span, from: int, n: nat)
    requires 0 <= from && (n > 0 ==> from + n <= |lines|)
    ensures |RowsFrom(lines, span, from, n)| == n + (if from <= span.startLine < from + n then 1 else 0)
  {
    if n > 0 {
      RowsFromLength(lines, span, from, n - 1);
    }
  }

  lemma {:induction false} RowsFromSources(lines: seq<string>, span: Span, from: int, n: nat)
    requires 0 <= from && (n > 0 ==> from + n <= |lines|)
    ensures forall k :: 0 <= k < |RowsFrom(lines, span, from, n)| && RowsFrom(lines, span, from, n)[k].SourceRow? ==>
      && from <= RowsFrom(lines, span, from, n)[k].number - 1 < from + n
      && RowsFrom(lines, span, from, n)[k].text == lines[RowsFrom(lines, span, from, n)[k].number - 1]
      && (RowsFrom(lines, span, from, n)[k].marked <==> RowsFrom(lines, span, from, n)[k].number - 1 == span.startLine)
  {
    if n > 0 {
      RowsFromSources(lines, span, from, n - 1);
      var prev := RowsFrom(lines, span, from, n - 1);
      var last := RowsAt(lines, span, from + n - 1);
      var rows := prev + last;
      assert RowsFrom(lines, span, from, n) == rows;
      forall k | 0 <= k < |rows| && rows[k].SourceRow?
        ensures from <= rows[k].number - 1 < from + n && rows[k].text == lines[rows[k].number - 1] &&
          (rows[k].marked <==> rows[k].number - 1 == span.startLine)
      {
        if k < |prev| {
          assert rows[k] == prev[k];
        } else {
          assert rows[k] == last[k - |prev|];
        }
      }
    }
  }

  lemma {:induction false} RowsFromCarets(lines: seq<string>, span: Span, from: int, n: nat)
    requires 0 <= from && (n > 0 ==> from + n <= |lines|)
    ensures forall k :: 0 <= k < |RowsFrom(lines, span, from, n)| && RowsFrom(lines, span, from, n)[k].CaretRow? ==>
      && 0 < k && RowsFrom(lines, span, from, n)[k - 1].SourceRow? && RowsFrom(lines, span, from, n)[k - 1].marked
      && RowsFrom(lines, span, from, n)[k] == CaretRow(HighlightColumn(span.startChar), CaretLength(span.startChar, span.endChar))
      && from <= span.startLine < from + n
    ensures from <= span.startLine < from + n ==>
      exists k :: 0 <= k < |RowsFrom(lines, span, from, n)| && RowsFrom(lines, span, from, n)[k].CaretRow?
  {
    if n > 0 {
      RowsFromCarets(lines, span, from, n - 1);
      var prev := RowsFrom(lines, span, from, n - 1);
      var last := RowsAt(lines, span, from + n - 1);
      var rows := prev + last;
      assert RowsFrom(lines, span, from, n) == rows;
      var caret := CaretRow(HighlightColumn(span.startChar), CaretLength(span.startChar, span.endChar));
      forall k | 0 <= k < |rows| && rows[k].CaretRow?
        ensures 0 < k && rows[k - 1].SourceRow? && rows[k - 1].marked && rows[k] == caret
        ensures from <= span.startLine < from + n
      {
        if k >= |prev| {
          assert rows[k] == last[k - |prev|];
          assert k == |prev| + 1 && rows[k - 1] == last[0];
        } else {
          assert rows[k] == prev[k];
          if k > 0 { assert rows[k - 1] == prev[k - 1]; }
        }
      }
      if from <= span.startLine < from + n {
        if span.startLine == from + n - 1 {
          assert rows[|prev| + 1].CaretRow?;
        } else {
          var k :| 0 <= k < |prev| && prev[k].CaretRow?;
          assert rows[k].CaretRow?;
        }
      }
    }
  }

  /**
   * The excerpt shows at most five lines, all of them lines of the file
   * within two of the problem's line, and carets exactly when the
   * problem's line is a line of the file.
   */
  lemma ExcerptShape(lines: seq<string>, span: Span)
    requires span.startLine >= 0
    ensures var rows := Excerpt(lines, span); var line := span.startLine;
      (&& (forall k :: 0 <= k < |rows| && rows[k].SourceRow? ==>
            1 <= rows[k].number <= |lines| && line - 2 <= rows[k].number - 1 <= line + 2 &&
            rows[k].text == lines[rows[k].number - 1] &&
            (rows[k].marked <==> rows[k].number - 1 == line))
      && ((exists k :: 0 <= k < |rows| && rows[k].CaretRow?) <==> line < |lines|)
      && |rows| <= 6
      && (line < |lines| ==> |rows| == Min(|lines| - 1, line + 2) - Max(0, line - 2) + 2))
  {
    var start := WindowStart(span.startLine);
    RowsFromShape(lines, span, start, WindowSize(start, WindowEnd(span.startLine, |lines|)));
  }
}
