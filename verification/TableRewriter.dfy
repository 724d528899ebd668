/** DingTalk's rewriting of pipe tables into quote lines. */
module TableRewriter {
  import opened Text

  // Recognising and cutting rows

  predicate IsRow(line: string) {
    var s := Strip(line);
    s != "" && s[0] == '|'
  }

  predicate SeparatorChar(c: char) {
    c == '-' || c == ':' || c == '|' || c == ' '
  }

  /** `^\|[-:| ]+\|$` on the stripped line. */
  predicate IsSeparator(line: string) {
    var s := Strip(line);
    |s| >= 3 && s[0] == '|' && s[|s| - 1] == '|' && forall i :: 0 < i < |s| - 1 ==> SeparatorChar(s[i])
  }

  function StripBars(s: string): string {
    if s != "" && s[0] == '|' then StripBars(s[1..])
    else if s != "" && s[|s| - 1] == '|' then StripBars(s[..|s| - 1])
    else s
  }

  function StripAll(parts: seq<string>): seq<string> {
    seq(|parts|, i requires 0 <= i < |parts| => Strip(parts[i]))
  }

  function Cells(line: string): seq<string> {
    StripAll(SplitOn(StripBars(Strip(line)), '|'))
  }

  function QuoteLine(header: string, cell: string): string {
    "> **" + header + "**: " + cell
  }

  /** One quote line per header and cell, as long as both last, and a blank line. */
  function QuotedRow(headers: seq<string>, cells: seq<string>): seq<string> {
    if headers == [] || cells == [] then [""]
    else [QuoteLine(headers[0], cells[0])] + QuotedRow(headers[1..], cells[1..])
  }

  predicate StartsTable(lines: seq<string>) {
    |lines| >= 2 && IsRow(lines[0]) && IsSeparator(lines[1])
  }

  // The rewriting

  function Convert(lines: seq<string>): seq<string>
    decreases |lines|
  {
    if lines == [] then []
    else if StartsTable(lines) then ConvertRows(Cells(lines[0]), lines[2..])
    else [lines[0]] + Convert(lines[1..])
  }

  function ConvertRows(headers: seq<string>, lines: seq<string>): seq<string>
    decreases |lines|
  {
    if lines != [] && IsRow(lines[0]) then QuotedRow(headers, Cells(lines[0])) + ConvertRows(headers, lines[1..])
    else if lines == [] then []
    else [lines[0]] + Convert(lines[1..])
  }

  function ConvertText(text: string): string {
    Join("\n", Convert(SplitOn(text, '\n')))
  }

  predicate TableAt(lines: seq<string>, i: nat) {
    i + 1 < |lines| && IsRow(lines[i]) && IsSeparator(lines[i + 1])
  }

  /** `done` is the conversion of the lines before `i`, as far as one can tell from the whole. */
  predicate ConvertedTo(lines: seq<string>, done: seq<string>, i: nat) {
    i <= |lines| && done + Convert(lines[i..]) == Convert(lines)
  }

  predicate QuotedTo(lines: seq<string>, done: seq<string>, headers: seq<string>, i: nat) {
    i <= |lines| && done + ConvertRows(headers, lines[i..]) == Convert(lines)
  }

  lemma KeepLine(lines: seq<string>, done: seq<string>, i: nat)
    requires ConvertedTo(lines, done, i) && i < |lines| && !TableAt(lines, i)
    ensures ConvertedTo(lines, done + [lines[i]], i + 1)
  {
  }

  lemma OpenTable(lines: seq<string>, done: seq<string>, i: nat)
    requires ConvertedTo(lines, done, i) && TableAt(lines, i)
    ensures QuotedTo(lines, done, Cells(lines[i]), i + 2)
  {
  }

  lemma QuoteNext(lines: seq<string>, done: seq<string>, headers: seq<string>, i: nat)
    requires QuotedTo(lines, done, headers, i) && i < |lines| && IsRow(lines[i])
    ensures QuotedTo(lines, done + QuotedRow(headers, Cells(lines[i])), headers, i + 1)
  {
  }

  lemma CloseTable(lines: seq<string>, done: seq<string>, headers: seq<string>, i: nat)
    requires QuotedTo(lines, done, headers, i) && (i < |lines| ==> !IsRow(lines[i]))
    ensures ConvertedTo(lines, done, i)
  {
  }

  method ConvertMarkdownTable(text: string) returns (converted: string)
    ensures converted == ConvertText(text)
  {
    var lines := SplitOn(text, '\n');
    var result: seq<string> := [];
    var i := 0;
    assert lines[0..] == lines && result + Convert(lines) == Convert(lines);
    while i < |lines|
      invariant 0 <= i && ConvertedTo(lines, result, i)
    {
      if TableAt(lines, i) {
        var headers := Cells(lines[i]);
        OpenTable(lines, result, i);
        i := i + 2;
        while i < |lines| && IsRow(lines[i])
          invariant 0 <= i && QuotedTo(lines, result, headers, i)
        {
          QuoteNext(lines, result, headers, i);
          var quoted := QuoteRow(headers, Cells(lines[i]));
          result := result + quoted;
          i := i + 1;
        }
        CloseTable(lines, result, headers, i);
      } else {
        KeepLine(lines, result, i);
        result := result + [lines[i]];
        i := i + 1;
      }
    }
    assert lines[|lines|..] == [] && result + [] == result;
    converted := Join("\n", result);
  }

  /** The loop over a row's headers and cells. */
  method QuoteRow(headers: seq<string>, cells: seq<string>) returns (quoted: seq<string>)
    ensures quoted == QuotedRow(headers, cells)
  {
    quoted := [];
    var n := if |headers| <= |cells| then |headers| else |cells|;
    for j := 0 to n
      invariant quoted + QuotedRow(headers[j..], cells[j..]) == QuotedRow(headers, cells)
    {
      ghost var h, c := headers[j..], cells[j..];
      assert h[1..] == headers[j + 1..] && c[1..] == cells[j + 1..];
      ghost var line, rest := QuoteLine(headers[j], cells[j]), QuotedRow(h[1..], c[1..]);
      assert QuotedRow(h, c) == [line] + rest;
      assert quoted + ([line] + rest) == quoted + [line] + rest;
      quoted := quoted + [QuoteLine(headers[j], cells[j])];
    }
    quoted := quoted + [""];
  }

  /** After its rows a table is over: what follows does not start another one. */
  lemma NotARowNext(headers: seq<string>, lines: seq<string>)
    requires lines == [] || !IsRow(lines[0])
    ensures ConvertRows(headers, lines) == Convert(lines)
  {
  }

  // No table is left

  ghost predicate NoTable(lines: seq<string>) {
    forall i :: 0 <= i < |lines| - 1 ==> !(IsRow(lines[i]) && IsSeparator(lines[i + 1]))
  }

  lemma QuoteIsNoRow(header: string, cell: string)
    ensures !IsRow(QuoteLine(header, cell)) && !IsRow("")
  {
    var q := QuoteLine(header, cell);
    assert q[0] == '>';
    StripSpec(q);
    StripSpec("");
  }

  lemma {:induction false} QuotedRowHasNoRow(headers: seq<string>, cells: seq<string>)
    ensures QuotedRow(headers, cells) != []
    ensures forall i :: 0 <= i < |QuotedRow(headers, cells)| ==> !IsRow(QuotedRow(headers, cells)[i])
  {
    if headers == [] || cells == [] {
      QuoteIsNoRow("", "");
    } else {
      QuoteIsNoRow(headers[0], cells[0]);
      QuotedRowHasNoRow(headers[1..], cells[1..]);
    }
  }

  /** The output starts with the first line itself or with a line that is no row. */
  ghost predicate StartsSafely(out: seq<string>, lines: seq<string>) {
    out == [] || !IsRow(out[0]) || (lines != [] && out[0] == lines[0])
  }

  lemma JoinSafely(a: seq<string>, b: seq<string>)
    requires NoTable(a) && NoTable(b)
    requires a != [] && b != [] ==> !(IsRow(a[|a| - 1]) && IsSeparator(b[0]))
    ensures NoTable(a + b)
  {
  }

  /** The output holds no header line followed by a separator line. */
  lemma {:induction false} ConvertLeavesNoTable(lines: seq<string>)
    ensures NoTable(Convert(lines)) && StartsSafely(Convert(lines), lines)
    decreases |lines|
  {
    if lines != [] {
      if StartsTable(lines) {
        RowsLeaveNoTable(Cells(lines[0]), lines[2..]);
      } else {
        ConvertLeavesNoTable(lines[1..]);
        KeptLineIsSafe(lines);
      }
    }
  }

  lemma KeptLineIsSafe(lines: seq<string>)
    requires lines != [] && !StartsTable(lines)
    requires NoTable(Convert(lines[1..])) && StartsSafely(Convert(lines[1..]), lines[1..])
    ensures NoTable([lines[0]] + Convert(lines[1..]))
  {
  }

  lemma {:induction false} RowsLeaveNoTable(headers: seq<string>, lines: seq<string>)
    ensures NoTable(ConvertRows(headers, lines))
    ensures ConvertRows(headers, lines) == [] || !IsRow(ConvertRows(headers, lines)[0])
    decreases |lines|
  {
    if lines != [] {
      if IsRow(lines[0]) {
        var quoted := QuotedRow(headers, Cells(lines[0]));
        QuotedRowHasNoRow(headers, Cells(lines[0]));
        RowsLeaveNoTable(headers, lines[1..]);
        JoinSafely(quoted, ConvertRows(headers, lines[1..]));
      } else {
        ConvertLeavesNoTable(lines[1..]);
        KeptLineIsSafe(lines);
      }
    }
  }

  lemma {:induction false} NoTableIsKept(lines: seq<string>)
    requires NoTable(lines)
    ensures Convert(lines) == lines
    decreases |lines|
  {
    if lines != [] {
      assert !StartsTable(lines);
      assert NoTable(lines[1..]) by {
        assert forall i :: 0 <= i < |lines[1..]| ==> lines[1..][i] == lines[i + 1];
      }
      NoTableIsKept(lines[1..]);
    }
  }

  /** Converting twice is converting once. */
  lemma ConvertIsIdempotent(lines: seq<string>)
    ensures Convert(Convert(lines)) == Convert(lines)
  {
    ConvertLeavesNoTable(lines);
    NoTableIsKept(Convert(lines));
  }

  // Texts

  predicate OneLine(s: string) {
    '\n' !in s
  }

  lemma {:induction false} StripBarsAddsNothing(s: string)
    requires OneLine(s)
    ensures OneLine(StripBars(s))
  {
    if s != "" && s[0] == '|' {
      StripBarsAddsNothing(s[1..]);
    } else if s != "" && s[|s| - 1] == '|' {
      StripBarsAddsNothing(s[..|s| - 1]);
    }
  }

  lemma CellsAreOneLine(line: string)
    requires OneLine(line)
    ensures SingleLines(Cells(line))
  {
    StripSpec(line);
    StripBarsAddsNothing(Strip(line));
    var parts := SplitOn(StripBars(Strip(line)), '|');
    SplitOnAddsNothing(StripBars(Strip(line)), '|', '\n');
    forall i | 0 <= i < |parts| ensures '\n' !in Strip(parts[i]) {
      StripSpec(parts[i]);
    }
  }

  lemma {:induction false} QuotedRowIsSingle(headers: seq<string>, cells: seq<string>)
    requires SingleLines(headers) && SingleLines(cells)
    ensures SingleLines(QuotedRow(headers, cells))
  {
    if headers != [] && cells != [] {
      QuotedRowIsSingle(headers[1..], cells[1..]);
    }
  }

  lemma {:induction false} ConvertIsSingle(lines: seq<string>)
    requires SingleLines(lines)
    ensures SingleLines(Convert(lines))
    decreases |lines|
  {
    if lines != [] {
      if StartsTable(lines) {
        CellsAreOneLine(lines[0]);
        RowsAreSingle(Cells(lines[0]), lines[2..]);
      } else {
        ConvertIsSingle(lines[1..]);
      }
    }
  }

  lemma {:induction false} RowsAreSingle(headers: seq<string>, lines: seq<string>)
    requires SingleLines(headers) && SingleLines(lines)
    ensures SingleLines(ConvertRows(headers, lines))
    decreases |lines|
  {
    if lines != [] {
      if IsRow(lines[0]) {
        CellsAreOneLine(lines[0]);
        QuotedRowIsSingle(headers, Cells(lines[0]));
        RowsAreSingle(headers, lines[1..]);
      } else {
        ConvertIsSingle(lines[1..]);
      }
    }
  }

  /** Converting a converted text changes nothing. */
  lemma ConvertTextIsIdempotent(text: string)
    ensures ConvertText(ConvertText(text)) == ConvertText(text)
  {
    var lines := SplitOn(text, '\n');
    SplitOnParts(text, '\n');
    ConvertIsSingle(lines);
    ConvertIsIdempotent(lines);
    var out := Convert(lines);
    if out == [] {
      assert SplitOn("", '\n') == [""];
      assert Convert([""]) == [""] + Convert([]);
    } else {
      SplitOnJoined(out, '\n');
    }
  }

  // What becomes of each line

  /** A text as the rewriter sees it: lines of their own, and tables with their data rows. */
  datatype Block = Plain(line: string) | Table(header: string, separator: string, rows: seq<string>)

  function SourceLines(b: Block): seq<string> {
    match b
    case Plain(line) => [line]
    case Table(header, separator, rows) => [header, separator] + rows
  }

  function Source(blocks: seq<Block>): seq<string> {
    if blocks == [] then [] else SourceLines(blocks[0]) + Source(blocks[1..])
  }

  function Quoted(headers: seq<string>, rows: seq<string>): seq<string> {
    if rows == [] then [] else QuotedRow(headers, Cells(rows[0])) + Quoted(headers, rows[1..])
  }

  function Rendered(blocks: seq<Block>): seq<string> {
    if blocks == [] then []
    else
      (match blocks[0]
       case Plain(line) => [line]
       case Table(header, _, rows) => Quoted(Cells(header), rows)) + Rendered(blocks[1..])
  }

  /** Tables are recognised where they can be and take all the rows that follow. */
  ghost predicate Proper(blocks: seq<Block>) {
    blocks == [] ||
    (var rest := Source(blocks[1..]);
     (match blocks[0]
      case Plain(line) => !StartsTable([line] + rest)
      case Table(header, separator, rows) =>
        && IsRow(header) && IsSeparator(separator)
        && (forall i :: 0 <= i < |rows| ==> IsRow(rows[i]))
        && (rest == [] || !IsRow(rest[0]))) &&
     Proper(blocks[1..]))
  }

  /** Every list of lines is made of proper blocks, and conversion renders just those. */
  lemma {:induction false} BlocksOf(lines: seq<string>) returns (blocks: seq<Block>)
    ensures Source(blocks) == lines && Proper(blocks) && Convert(lines) == Rendered(blocks)
    decreases |lines|
  {
    if lines == [] {
      blocks := [];
    } else if StartsTable(lines) {
      var n := RowsFrom(lines, 2);
      var rows, rest := lines[2..n], lines[n..];
      var more := BlocksOf(rest);
      blocks := [Table(lines[0], lines[1], rows)] + more;
      assert rest == [] || !IsRow(rest[0]);
      assert forall i :: 0 <= i < |rows| ==> rows[i] == lines[i + 2];
      assert lines == [lines[0], lines[1]] + rows + rest;
      TableIsProper(lines[0], lines[1], rows, more);
      TableRenders(lines[0], lines[1], rows, more);
    } else {
      var more := BlocksOf(lines[1..]);
      blocks := [Plain(lines[0])] + more;
      PlainBlock(lines, more);
    }
  }

  lemma PlainBlock(lines: seq<string>, more: seq<Block>)
    requires lines != [] && !StartsTable(lines)
    requires Source(more) == lines[1..] && Proper(more) && Convert(lines[1..]) == Rendered(more)
    ensures var blocks := [Plain(lines[0])] + more;
      Source(blocks) == lines && Proper(blocks) && Convert(lines) == Rendered(blocks)
  {
  }

  lemma TableIsProper(header: string, separator: string, rows: seq<string>, more: seq<Block>)
    requires IsRow(header) && IsSeparator(separator) && Proper(more)
    requires forall i :: 0 <= i < |rows| ==> IsRow(rows[i])
    requires Source(more) == [] || !IsRow(Source(more)[0])
    ensures Proper([Table(header, separator, rows)] + more)
  {
  }

  lemma TableRenders(header: string, separator: string, rows: seq<string>, more: seq<Block>)
    requires IsRow(header) && IsSeparator(separator)
    requires forall i :: 0 <= i < |rows| ==> IsRow(rows[i])
    requires Source(more) == [] || !IsRow(Source(more)[0])
    requires Convert(Source(more)) == Rendered(more)
    ensures var blocks := [Table(header, separator, rows)] + more;
      Source(blocks) == [header, separator] + rows + Source(more) &&
      Convert([header, separator] + rows + Source(more)) == Rendered(blocks)
  {
    var blocks := [Table(header, separator, rows)] + more;
    assert blocks[1..] == more;
    var rest := Source(more);
    assert [header, separator] + rows + rest == [header, separator] + (rows + rest);
    TableConverts(header, separator, rows + rest);
    RowsAreQuoted(Cells(header), rows, rest);
  }

  lemma TableConverts(header: string, separator: string, rest: seq<string>)
    requires IsRow(header) && IsSeparator(separator)
    ensures Convert([header, separator] + rest) == ConvertRows(Cells(header), rest)
  {
  }

  lemma RowsFrom(lines: seq<string>, from: nat) returns (n: nat)
    requires from <= |lines|
    ensures from <= n <= |lines|
    ensures forall i :: from <= i < n ==> IsRow(lines[i])
    ensures n < |lines| ==> !IsRow(lines[n])
  {
    n := from;
    while n < |lines| && IsRow(lines[n])
      invariant from <= n <= |lines|
      invariant forall i :: from <= i < n ==> IsRow(lines[i])
    {
      n := n + 1;
    }
  }

  lemma {:induction false} RowsAreQuoted(headers: seq<string>, rows: seq<string>, rest: seq<string>)
    requires forall i :: 0 <= i < |rows| ==> IsRow(rows[i])
    requires rest == [] || !IsRow(rest[0])
    ensures ConvertRows(headers, rows + rest) == Quoted(headers, rows) + Convert(rest)
    decreases |rows|
  {
    if rows == [] {
      assert rows + rest == rest;
      NotARowNext(headers, rest);
    } else {
      assert (rows + rest)[1..] == rows[1..] + rest;
      RowsAreQuoted(headers, rows[1..], rest);
    }
  }
}
