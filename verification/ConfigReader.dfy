/**
  The line-based config reader of scripts/detect_uv_extras.py and the printer it inverts:
  a tree of mappings, scalars and lists, printed with any indentation that is consistent
  inside a mapping, with blank lines, comment lines, trailing comments and lists of any depth.
 */
module ConfigReader {
  import opened Text
  import opened Wrappers

  // Comments and quotes

  predicate IsQuote(c: char) {
    c == '\'' || c == '"'
  }

  /** The quote that is open after `c`. */
  function Next(quote: Option<char>, c: char): Option<char> {
    if quote.Some? then (if c == quote.value then None else quote)
    else if IsQuote(c) then Some(c)
    else None
  }

  function Open(s: string, quote: Option<char>): Option<char> {
    if s == "" then quote else Open(s[1..], Next(quote, s[0]))
  }

  /** `s` up to the first `#` outside quotes. */
  function Cut(s: string, quote: Option<char>): string {
    if s == "" || (quote.None? && s[0] == '#') then ""
    else [s[0]] + Cut(s[1..], Next(quote, s[0]))
  }

  /** No `#` outside quotes, and every quote is closed. */
  predicate Closed(s: string) {
    Cut(s, None) == s && Open(s, None) == None
  }

  method StripComment(line: string) returns (r: string)
    ensures r == RStrip(Cut(line, None))
  {
    var quote: Option<char> := None;
    var out := "";
    var i := 0;
    while i < |line|
      invariant 0 <= i <= |line|
      invariant out + Cut(line[i..], quote) == Cut(line, None)
    {
      var c := line[i];
      assert line[i..][0] == c && line[i..][1..] == line[i + 1..];
      ghost var rest := Cut(line[i + 1..], Next(quote, c));
      if quote.Some? {
        assert out + [c] + rest == Cut(line, None);
        out := out + [c];
        if c == quote.value {
          quote := None;
        }
      } else if IsQuote(c) {
        assert out + [c] + rest == Cut(line, None);
        quote := Some(c);
        out := out + [c];
      } else if c == '#' {
        break;
      } else {
        assert out + [c] + rest == Cut(line, None);
        out := out + [c];
      }
      i := i + 1;
    }
    assert out + "" == out;
    r := RStrip(out);
  }

  /** The two ends are the same quote. */
  predicate Wrapped(s: string) {
    |s| >= 2 && s[0] == s[|s| - 1] && IsQuote(s[0])
  }

  function Unquote(s: string): string {
    if Wrapped(s) then s[1..|s| - 1] else s
  }

  lemma {:induction false} CutAppend(a: string, b: string, quote: Option<char>)
    requires Cut(a, quote) == a
    ensures Cut(a + b, quote) == a + Cut(b, Open(a, quote))
    ensures Open(a + b, quote) == Open(b, Open(a, quote))
  {
    if a == "" {
      assert a + b == b;
    } else {
      var s := a + b;
      assert s[0] == a[0] && s[1..] == a[1..] + b;
      assert a == [a[0]] + Cut(a[1..], Next(quote, a[0]));
      assert Cut(a[1..], Next(quote, a[0])) == a[1..];
      CutAppend(a[1..], b, Next(quote, a[0]));
      assert Cut(s, quote) == [a[0]] + (a[1..] + Cut(b, Open(a, quote)));
    }
  }

  lemma ClosedAppend(a: string, b: string)
    requires Closed(a) && Closed(b)
    ensures Closed(a + b)
  {
    CutAppend(a, b, None);
  }

  lemma {:induction false} PlainIsClosed(s: string)
    requires forall c :: c in s ==> !IsQuote(c) && c != '#'
    ensures Closed(s)
  {
    if s != "" {
      assert s[0] in s;
      PlainIsClosed(s[1..]);
      assert s == [s[0]] + s[1..];
    }
  }

  lemma {:induction false} InsideQuotes(s: string, q: char)
    requires IsQuote(q) && q !in s
    ensures Cut(s, Some(q)) == s && Open(s, Some(q)) == Some(q)
  {
    if s != "" {
      InsideQuotes(s[1..], q);
      assert s == [s[0]] + s[1..];
    }
  }

  lemma QuotedIsClosed(s: string, q: char)
    requires IsQuote(q) && q !in s
    ensures Closed([q] + s + [q])
  {
    InsideQuotes(s, q);
    CutAppend(s, [q], Some(q));
    assert ([q] + s + [q])[1..] == s + [q];
    assert [q] + (s + [q]) == [q] + s + [q];
    assert Cut([q], Some(q)) == [q] + Cut("", None);
    assert Open([q], Some(q)) == Open("", None);
  }

  // Lines as the three expressions see them

  datatype Head =
    | Header(name: string)
    | Pair(name: string, text: string)
    | Other

  /** A line without its comment: nothing, or an indentation and what stands after it. */
  datatype Line = Blank | Line(indent: nat, head: Head)

  predicate IsNameStart(c: char) {
    'A' <= c <= 'Z' || 'a' <= c <= 'z' || c == '_'
  }

  predicate IsNameChar(c: char) {
    IsNameStart(c) || '0' <= c <= '9' || c == '-'
  }

  predicate IsName(s: string) {
    s != "" && IsNameStart(s[0]) && forall c :: c in s ==> IsNameChar(c)
  }

  function NameLength(s: string): (n: nat)
    ensures n <= |s|
  {
    if s == "" || !IsNameChar(s[0]) then 0 else 1 + NameLength(s[1..])
  }

  /**
    The three regular expressions share one shape: name, blanks, colon, and then nothing or
    a value. The indentation decides which of the first two can match.
   */
  function HeadOf(text: string): Head {
    var n := NameLength(text);
    if n == 0 || !IsNameStart(text[0]) then Other
    else
      var rest := LStrip(text[n..]);
      if rest == "" || rest[0] != ':' then Other
      else if Strip(rest[1..]) == "" then Header(text[..n])
      else Pair(text[..n], Strip(rest[1..]))
  }

  function LineOf(stripped: string): Line {
    LStripSpec(stripped);
    var text := LStrip(stripped);
    if text == "" then Blank else Line(|stripped| - |text|, HeadOf(text))
  }

  function Read(raw: string): Line {
    LineOf(RStrip(Cut(raw, None)))
  }

  function ReadAll(raws: seq<string>): seq<Line> {
    if raws == [] then [] else [Read(raws[0])] + ReadAll(raws[1..])
  }

  lemma {:induction false} ReadAllAppend(a: seq<string>, b: seq<string>)
    ensures ReadAll(a + b) == ReadAll(a) + ReadAll(b)
  {
    if a == [] {
      assert a + b == b;
    } else {
      assert (a + b)[1..] == a[1..] + b;
      ReadAllAppend(a[1..], b);
    }
  }

  // section_value

  datatype Scan = Found(value: string) | At(inside: bool, child: Option<nat>)

  function SectionStep(section: string, key: string, s: Scan, line: Line): Scan {
    if s.Found? || line.Blank? then s
    else if line.indent == 0 && line.head.Header? then At(line.head.name == section, None)
    else if !s.inside then s
    else if line.indent == 0 then At(false, s.child)
    else
      var child := if s.child.None? then line.indent else s.child.value;
      if line.indent < child then At(false, Some(child))
      else if line.indent == child && line.head.Pair? && line.head.name == key then Found(Unquote(line.head.text))
      else At(true, Some(child))
  }

  function SectionRun(section: string, key: string, s: Scan, lines: seq<Line>): Scan
    decreases |lines|
  {
    if lines == [] then s
    else SectionRun(section, key, SectionStep(section, key, s, lines[0]), lines[1..])
  }

  function SectionResult(lines: seq<string>, section: string, key: string): Option<string> {
    var s := SectionRun(section, key, At(false, None), ReadAll(lines));
    if s.Found? then Some(s.value) else None
  }

  lemma {:induction false} FoundStays(section: string, key: string, v: string, lines: seq<Line>)
    ensures SectionRun(section, key, Found(v), lines) == Found(v)
  {
    if lines != [] {
      FoundStays(section, key, v, lines[1..]);
    }
  }

  method SectionValue(lines: seq<string>, section: string, key: string) returns (r: Option<string>)
    ensures r == SectionResult(lines, section, key)
  {
    var inside := false;
    var childIndent: Option<nat> := None;
    var i := 0;
    while i < |lines|
      invariant 0 <= i <= |lines|
      invariant SectionRun(section, key, At(false, None), ReadAll(lines))
             == SectionRun(section, key, At(inside, childIndent), ReadAll(lines[i..]))
    {
      var line := StripComment(lines[i]);
      assert lines[i..][1..] == lines[i + 1..];
      assert ReadAll(lines[i..]) == [LineOf(line)] + ReadAll(lines[i + 1..]);
      assert ReadAll(lines[i..])[1..] == ReadAll(lines[i + 1..]);
      i := i + 1;
      LStripSpec(line);
      var stripped := LStrip(line);
      if stripped == "" {
        continue;
      }
      var indent := |line| - |stripped|;
      var head := HeadOf(stripped);
      if indent == 0 && head.Header? {
        inside := head.name == section;
        childIndent := None;
        continue;
      }
      if !inside {
        continue;
      }
      if indent == 0 {
        inside := false;
        continue;
      }
      if childIndent.None? {
        childIndent := Some(indent);
      }
      if indent < childIndent.value {
        inside := false;
        continue;
      }
      if indent != childIndent.value {
        continue;
      }
      if head.Pair? && head.name == key {
        FoundStays(section, key, Unquote(head.text), ReadAll(lines[i..]));
        return Some(Unquote(head.text));
      }
    }
    return None;
  }

  // nested_section_value

  datatype NestedScan =
    | NestedFound(value: string)
    | NestedAt(inParent: bool, inChild: bool, parentIndent: Option<nat>, childIndent: Option<nat>)

  datatype Path = Path(parent: string, child: string, key: string)

  function NestedStep(path: Path, s: NestedScan, line: Line): NestedScan {
    if s.NestedFound? || line.Blank? then s
    else if line.indent == 0 && line.head.Header? then NestedAt(line.head.name == path.parent, false, None, None)
    else if !s.inParent then s
    else if line.indent == 0 then NestedAt(false, false, s.parentIndent, s.childIndent)
    else
      var parentIndent := if s.parentIndent.None? then line.indent else s.parentIndent.value;
      if line.indent == parentIndent then
        if line.head.Header? && line.head.name == path.child then NestedAt(true, true, Some(parentIndent), None)
        else NestedAt(true, false, Some(parentIndent), s.childIndent)
      else if !s.inChild then NestedAt(true, false, Some(parentIndent), s.childIndent)
      else
        var childIndent := if s.childIndent.None? && line.indent > parentIndent then Some(line.indent) else s.childIndent;
        if (childIndent.None? || line.indent == childIndent.value) && line.head.Pair? && line.head.name == path.key then
          NestedFound(Unquote(line.head.text))
        else
          NestedAt(true, true, Some(parentIndent), childIndent)
  }

  function NestedRun(path: Path, s: NestedScan, lines: seq<Line>): NestedScan
    decreases |lines|
  {
    if lines == [] then s else NestedRun(path, NestedStep(path, s, lines[0]), lines[1..])
  }

  function NestedResult(lines: seq<string>, sectionPath: string, key: string): Option<string> {
    var parts := SplitOn(sectionPath, '.');
    if |parts| != 2 then None
    else
      var s := NestedRun(Path(parts[0], parts[1], key), NestedAt(false, false, None, None), ReadAll(lines));
      if s.NestedFound? then Some(s.value) else None
  }

  lemma {:induction false} NestedFoundStays(path: Path, v: string, lines: seq<Line>)
    ensures NestedRun(path, NestedFound(v), lines) == NestedFound(v)
  {
    if lines != [] {
      NestedFoundStays(path, v, lines[1..]);
    }
  }

  function NestedFrom(path: Path, s: NestedScan, raws: seq<string>): NestedScan {
    NestedRun(path, s, ReadAll(raws))
  }

  lemma NestedNext(path: Path, s: NestedScan, raws: seq<string>, i: nat)
    requires i < |raws|
    ensures NestedFrom(path, s, raws[i..]) == NestedFrom(path, NestedStep(path, s, Read(raws[i])), raws[i + 1..])
  {
  }

  method NestedSectionValue(lines: seq<string>, sectionPath: string, key: string) returns (r: Option<string>)
    ensures r == NestedResult(lines, sectionPath, key)
  {
    var parts := SplitOn(sectionPath, '.');
    if |parts| != 2 {
      return None;
    }
    var parentSection, childSection := parts[0], parts[1];
    var insideParent, insideChild := false, false;
    var parentIndent: Option<nat>, childIndent: Option<nat> := None, None;
    ghost var path := Path(parentSection, childSection, key);
    var i := 0;
    while i < |lines|
      invariant 0 <= i <= |lines|
      invariant NestedFrom(path, NestedAt(false, false, None, None), lines)
             == NestedFrom(path, NestedAt(insideParent, insideChild, parentIndent, childIndent), lines[i..])
    {
      var line := StripComment(lines[i]);
      NestedNext(path, NestedAt(insideParent, insideChild, parentIndent, childIndent), lines, i);
      i := i + 1;
      LStripSpec(line);
      var stripped := LStrip(line);
      if stripped == "" {
        continue;
      }
      var indent := |line| - |stripped|;
      var head := HeadOf(stripped);
      if indent == 0 && head.Header? {
        insideParent := head.name == parentSection;
        insideChild := false;
        parentIndent := None;
        childIndent := None;
        continue;
      }
      if !insideParent {
        continue;
      }
      if parentIndent.None? && indent > 0 {
        parentIndent := Some(indent);
      }
      if indent == 0 {
        insideParent := false;
        insideChild := false;
        continue;
      }
      if parentIndent.Some? && indent == parentIndent.value {
        if head.Header? && head.name == childSection {
          insideChild := true;
          childIndent := None;
          continue;
        } else {
          insideChild := false;
          continue;
        }
      }
      if !insideChild {
        continue;
      }
      if childIndent.None? && indent > (if parentIndent.Some? then parentIndent.value else 0) {
        childIndent := Some(indent);
      }
      if childIndent.Some? && indent != childIndent.value {
        continue;
      }
      if head.Pair? && head.name == key {
        NestedFoundStays(path, Unquote(head.text), ReadAll(lines[i..]));
        return Some(Unquote(head.text));
      }
    }
    return None;
  }

  // The tree and its printer

  datatype Scalar = Plain(value: string) | Quoted(quote: char, value: string)

  /** A line of a list: its text, and how far it stands beyond the list's own indentation. */
  datatype Piece = Piece(extra: nat, text: string)

  datatype Body =
    | Leaf(lead: string, scalar: Scalar)
    | Mapping(step: nat, children: seq<Node>)
    | Listing(step: nat, pieces: seq<Piece>)

  /** `noise` are the blank and comment lines before the node, `tail` is what follows on its line. */
  datatype Node = Node(noise: seq<string>, name: string, gap: string, body: Body, tail: string)

  predicate Blanks(s: string) {
    LStrip(s) == ""
  }

  /** Blanks, and possibly a comment after them. */
  predicate BlankOrComment(s: string) {
    LStrip(s) == "" || LStrip(s)[0] == '#'
  }

  function ScalarText(scalar: Scalar): string {
    if scalar.Plain? then scalar.value else [scalar.quote] + scalar.value + [scalar.quote]
  }

  predicate ValidScalar(scalar: Scalar) {
    match scalar
    case Plain(v) => v != "" && Trimmed(v) && Closed(v) && !Wrapped(v)
    case Quoted(q, v) => IsQuote(q) && q !in v
  }

  /** A list starts with a dash; only its continuation lines stand further in. */
  predicate ValidPieces(pieces: seq<Piece>) {
    && (pieces != [] ==> pieces[0].extra == 0)
    && forall i :: 0 <= i < |pieces| ==>
         && pieces[i].text != "" && !IsSpace(pieces[i].text[0]) && pieces[i].text[0] != '#'
         && (pieces[i].extra == 0 ==> pieces[i].text[0] == '-')
  }

  predicate Valid(nodes: seq<Node>) {
    nodes == [] ||
    (var node := nodes[0];
     && (forall i :: 0 <= i < |node.noise| ==> BlankOrComment(node.noise[i]))
     && IsName(node.name) && Blanks(node.gap)
     && (node.tail == "" || (IsSpace(node.tail[0]) && BlankOrComment(node.tail)))
     && ValidBody(node.body)
     && Valid(nodes[1..]))
  }

  predicate ValidBody(body: Body) {
    match body
    case Leaf(lead, scalar) => lead != "" && Blanks(lead) && ValidScalar(scalar)
    case Mapping(step, children) => step > 0 && Valid(children)
    case Listing(step, pieces) => step > 0 && ValidPieces(pieces)
  }

  /** How much further in the lines of a body stand. */
  function StepOf(body: Body): nat {
    match body
    case Leaf(_, _) => 1
    case Mapping(step, _) => step
    case Listing(step, _) => step
  }

  function Spaces(n: nat): string {
    seq(n, _ => ' ')
  }

  function AfterColon(body: Body): string {
    if body.Leaf? then body.lead + ScalarText(body.scalar) else ""
  }

  function HeadLine(node: Node, indent: nat): string {
    Spaces(indent) + (node.name + node.gap + ":" + AfterColon(node.body)) + node.tail
  }

  function PieceLines(pieces: seq<Piece>, indent: nat): seq<string> {
    if pieces == [] then []
    else [Spaces(indent + pieces[0].extra) + pieces[0].text] + PieceLines(pieces[1..], indent)
  }

  function Print(nodes: seq<Node>, indent: nat): seq<string> {
    if nodes == [] then []
    else (nodes[0].noise + [HeadLine(nodes[0], indent)]) + PrintBody(nodes[0].body, indent) + Print(nodes[1..], indent)
  }

  function PrintBody(body: Body, indent: nat): seq<string> {
    match body
    case Leaf(_, _) => []
    case Mapping(step, children) => Print(children, indent + step)
    case Listing(step, pieces) => PieceLines(pieces, indent + step)
  }

  // What the reader sees of a printed tree

  function BlankLines(n: nat): seq<Line> {
    seq(n, _ => Blank)
  }

  function HeadSeen(node: Node): Head {
    if node.body.Leaf? then Pair(node.name, ScalarText(node.body.scalar)) else Header(node.name)
  }

  function PiecesSeen(pieces: seq<Piece>, indent: nat): seq<Line> {
    if pieces == [] then []
    else [Line(indent + pieces[0].extra, HeadOf(RStrip(Cut(pieces[0].text, None))))] + PiecesSeen(pieces[1..], indent)
  }

  function Seen(nodes: seq<Node>, indent: nat): seq<Line> {
    if nodes == [] then []
    else NodeSeen(nodes[0], indent) + BodySeen(nodes[0].body, indent) + Seen(nodes[1..], indent)
  }

  function NodeSeen(node: Node, indent: nat): seq<Line> {
    BlankLines(|node.noise|) + [Line(indent, HeadSeen(node))]
  }

  function BodySeen(body: Body, indent: nat): seq<Line> {
    match body
    case Leaf(_, _) => []
    case Mapping(step, children) => Seen(children, indent + step)
    case Listing(step, pieces) => PiecesSeen(pieces, indent + step)
  }

  // Characters: every printed line is read as intended

  lemma {:induction false} LStripBlanks(b: string, s: string)
    requires Blanks(b)
    ensures LStrip(b + s) == LStrip(s)
  {
    if b == "" {
      assert b + s == s;
    } else {
      assert (b + s)[1..] == b[1..] + s;
      LStripBlanks(b[1..], s);
    }
  }

  lemma {:induction false} SpacesAreBlanks(n: nat)
    ensures Blanks(Spaces(n)) && Closed(Spaces(n))
  {
    if n == 0 {
      assert Spaces(0) == "";
    } else {
      assert Spaces(n)[1..] == Spaces(n - 1);
      SpacesAreBlanks(n - 1);
    }
    PlainIsClosed(Spaces(n));
  }

  lemma {:induction false} BlanksAreSpaces(s: string)
    ensures Blanks(s) <==> forall c :: c in s ==> IsSpace(c)
  {
    LStripSpec(s);
    if s != "" && IsSpace(s[0]) {
      BlanksAreSpaces(s[1..]);
      assert s == [s[0]] + s[1..];
    } else if s != "" {
      assert s[0] in s;
    }
  }

  lemma {:induction false} RStripBlanks(s: string, b: string)
    requires s != "" && !IsSpace(s[|s| - 1])
    requires forall c :: c in b ==> IsSpace(c)
    ensures RStrip(s + b) == s
  {
    if b == "" {
      assert s + b == s;
    } else {
      var n := |b| - 1;
      assert b[n] in b;
      assert (s + b)[..|s + b| - 1] == s + b[..n];
      assert forall c :: c in b[..n] ==> c in b;
      RStripBlanks(s, b[..n]);
    }
  }

  /** Cutting blanks and a comment leaves blanks. */
  lemma {:induction false} CutComment(s: string)
    requires BlankOrComment(s)
    ensures forall c :: c in Cut(s, None) ==> IsSpace(c)
  {
    if s != "" && IsSpace(s[0]) {
      CutComment(s[1..]);
    }
  }

  /** A closed text survives whatever comment follows it. */
  lemma CommentCut(head: string, tail: string)
    requires Closed(head) && head != "" && !IsSpace(head[|head| - 1])
    requires BlankOrComment(tail)
    ensures RStrip(Cut(head + tail, None)) == head
  {
    CutAppend(head, tail, None);
    CutComment(tail);
    RStripBlanks(head, Cut(tail, None));
  }

  lemma {:induction false} NoiseIsBlank(s: string)
    requires BlankOrComment(s)
    ensures Read(s) == Blank
  {
    CutComment(s);
    var cut := Cut(s, None);
    RStripSpec(cut);
    assert forall c :: c in RStrip(cut) ==> c in cut;
    BlanksAreSpaces(RStrip(cut));
  }

  lemma {:induction false} NameLengthOf(name: string, rest: string)
    requires forall c :: c in name ==> IsNameChar(c)
    requires rest == "" || !IsNameChar(rest[0])
    ensures NameLength(name + rest) == |name|
  {
    if name == "" {
      assert name + rest == rest;
    } else {
      assert name[0] in name && (name + rest)[1..] == name[1..] + rest;
      NameLengthOf(name[1..], rest);
    }
  }

  lemma HeadOfName(name: string, gap: string, rest: string)
    requires IsName(name) && Blanks(gap)
    ensures HeadOf(name + gap + ":" + rest) == if Strip(rest) == "" then Header(name) else Pair(name, Strip(rest))
  {
    var text := name + gap + ":" + rest;
    var after := gap + (":" + rest);
    assert text == name + after;
    BlanksAreSpaces(gap);
    assert gap != "" ==> after[0] == gap[0] && gap[0] in gap;
    NameLengthOf(name, after);
    assert text[..|name|] == name && text[|name|..] == after;
    LStripBlanks(gap, ":" + rest);
    assert (":" + rest)[1..] == rest;
  }

  /** An indented text whose ends are no blanks. */
  lemma LineOfText(indent: nat, text: string)
    requires text != "" && !IsSpace(text[0])
    ensures LineOf(Spaces(indent) + text) == Line(indent, HeadOf(text))
  {
    SpacesAreBlanks(indent);
    LStripBlanks(Spaces(indent), text);
  }

  lemma {:induction false} RStripAfter(a: string, x: string)
    requires x != "" && !IsSpace(x[0])
    ensures RStrip(a + x) == a + RStrip(x)
  {
    if IsSpace(x[|x| - 1]) {
      assert (a + x)[..|a + x| - 1] == a + x[..|x| - 1];
      RStripAfter(a, x[..|x| - 1]);
    }
  }

  lemma ScalarTextSpec(scalar: Scalar)
    requires ValidScalar(scalar)
    ensures var text := ScalarText(scalar);
      text != "" && Trimmed(text) && Closed(text) && Unquote(text) == scalar.value
  {
    if scalar.Quoted? {
      QuotedIsClosed(scalar.value, scalar.quote);
    }
  }

  /** Blanks before a value do not change what is read. */
  lemma LeadSpec(lead: string, value: string)
    requires Blanks(lead) && value != "" && Trimmed(value) && Closed(value)
    ensures Closed(lead + value) && Strip(lead + value) == value
  {
    BlanksAreSpaces(lead);
    PlainIsClosed(lead);
    ClosedAppend(lead, value);
    LStripBlanks(lead, value);
  }

  /** A line without its tail is closed, ends in no blank, and reads as its head. */
  lemma BareLine(indent: nat, name: string, gap: string, rest: string)
    requires IsName(name) && Blanks(gap) && Closed(rest)
    requires rest == "" || !IsSpace(rest[|rest| - 1])
    ensures var bare := Spaces(indent) + (name + gap + ":" + rest);
      && Closed(bare) && !IsSpace(bare[|bare| - 1])
      && LineOf(bare) == Line(indent, if Strip(rest) == "" then Header(name) else Pair(name, Strip(rest)))
  {
    var start := name + gap + ":";
    HeadOfName(name, gap, rest);
    LabelIsClosed(name, gap);
    ClosedAppend(start, rest);
    Indented(indent, start + rest);
  }

  lemma LabelIsClosed(name: string, gap: string)
    requires IsName(name) && Blanks(gap)
    ensures Closed(name + gap + ":")
  {
    BlanksAreSpaces(gap);
    PlainIsClosed(name + gap + ":");
  }

  lemma Indented(indent: nat, text: string)
    requires text != "" && !IsSpace(text[0]) && Closed(text)
    ensures Closed(Spaces(indent) + text)
    ensures LineOf(Spaces(indent) + text) == Line(indent, HeadOf(text))
  {
    LineOfText(indent, text);
    SpacesAreBlanks(indent);
    ClosedAppend(Spaces(indent), text);
  }

  lemma AfterColonSpec(body: Body)
    requires ValidBody(body)
    ensures var rest := AfterColon(body);
      && Closed(rest) && (rest == "" || !IsSpace(rest[|rest| - 1]))
      && (body.Leaf? ==> Strip(rest) == ScalarText(body.scalar) != "")
      && (!body.Leaf? ==> rest == "")
  {
    if body.Leaf? {
      ScalarTextSpec(body.scalar);
      LeadSpec(body.lead, ScalarText(body.scalar));
    }
  }

  lemma HeadIsRead(node: Node, indent: nat)
    requires IsName(node.name) && Blanks(node.gap) && ValidBody(node.body) && BlankOrComment(node.tail)
    ensures Read(HeadLine(node, indent)) == Line(indent, HeadSeen(node))
  {
    AfterColonSpec(node.body);
    BareLine(indent, node.name, node.gap, AfterColon(node.body));
    CommentCut(Spaces(indent) + (node.name + node.gap + ":" + AfterColon(node.body)), node.tail);
  }

  lemma {:induction false} PiecesAreRead(pieces: seq<Piece>, indent: nat)
    requires forall i :: 0 <= i < |pieces| ==>
      pieces[i].text != "" && !IsSpace(pieces[i].text[0]) && pieces[i].text[0] != '#'
    ensures ReadAll(PieceLines(pieces, indent)) == PiecesSeen(pieces, indent)
  {
    if pieces != [] {
      var start, text := Spaces(indent + pieces[0].extra), pieces[0].text;
      SpacesAreBlanks(indent + pieces[0].extra);
      CutAppend(start, text, None);
      var cut := Cut(text, None);
      RStripAfter(start, cut);
      RStripSpec(cut);
      LineOfText(indent + pieces[0].extra, RStrip(cut));
      assert PieceLines(pieces, indent)[1..] == PieceLines(pieces[1..], indent);
      PiecesAreRead(pieces[1..], indent);
    }
  }

  lemma {:induction false} NoiseIsRead(noise: seq<string>)
    requires forall i :: 0 <= i < |noise| ==> BlankOrComment(noise[i])
    ensures ReadAll(noise) == BlankLines(|noise|)
  {
    if noise != [] {
      NoiseIsBlank(noise[0]);
      NoiseIsRead(noise[1..]);
    }
  }

  /** Every printed line reads as the part of the tree it was printed for. */
  lemma {:induction false} PrintedIsSeen(nodes: seq<Node>, indent: nat)
    requires Valid(nodes)
    ensures ReadAll(Print(nodes, indent)) == Seen(nodes, indent)
  {
    if nodes != [] {
      var node := nodes[0];
      NodeIsRead(node, indent);
      BodyIsRead(node.body, indent);
      PrintedIsSeen(nodes[1..], indent);
      var start, body, rest := node.noise + [HeadLine(node, indent)], PrintBody(node.body, indent), Print(nodes[1..], indent);
      ReadAllAppend(start, body);
      ReadAllAppend(start + body, rest);
    }
  }

  lemma NodeIsRead(node: Node, indent: nat)
    requires Valid([node])
    ensures ReadAll(node.noise + [HeadLine(node, indent)]) == NodeSeen(node, indent)
  {
    NoiseIsRead(node.noise);
    HeadIsRead(node, indent);
    ReadAllAppend(node.noise, [HeadLine(node, indent)]);
  }

  lemma {:induction false} BodyIsRead(body: Body, indent: nat)
    requires body.Mapping? ==> Valid(body.children)
    requires body.Listing? ==> ValidPieces(body.pieces)
    ensures ReadAll(PrintBody(body, indent)) == BodySeen(body, indent)
  {
    match body
    case Leaf(_, _) =>
    case Mapping(step, children) => PrintedIsSeen(children, indent + step);
    case Listing(step, pieces) => PiecesAreRead(pieces, indent + step);
  }

  // What a tree holds

  /** The first scalar that stands at `path`. */
  function ValueAt(nodes: seq<Node>, path: seq<string>): Option<string>
    requires path != []
  {
    if nodes == [] then None
    else
      var found := if nodes[0].name == path[0] then BodyValue(nodes[0].body, path[1..]) else None;
      if found.Some? then found else ValueAt(nodes[1..], path)
  }

  function BodyValue(body: Body, path: seq<string>): Option<string> {
    match body
    case Leaf(_, scalar) => if path == [] then Some(scalar.value) else None
    case Mapping(_, children) => if path != [] then ValueAt(children, path) else None
    case Listing(_, _) => None
  }

  ghost predicate UniqueNames(nodes: seq<Node>) {
    && (forall i, j :: 0 <= i < j < |nodes| ==> nodes[i].name != nodes[j].name)
    && (forall i :: 0 <= i < |nodes| && nodes[i].body.Mapping? ==> UniqueNames(nodes[i].body.children))
  }

  /** Some node of the tree at `path` is a scalar with this value. */
  ghost predicate Stored(nodes: seq<Node>, path: seq<string>, v: string)
    requires path != []
    decreases |path|, 0
  {
    exists i :: 0 <= i < |nodes| && nodes[i].name == path[0] && BodyStored(nodes[i].body, path[1..], v)
  }

  ghost predicate BodyStored(body: Body, path: seq<string>, v: string)
    decreases |path|, 1
  {
    match body
    case Leaf(_, scalar) => path == [] && scalar.value == v
    case Mapping(_, children) => path != [] && Stored(children, path, v)
    case Listing(_, _) => false
  }

  /** With unique names the first scalar at a path is the only one. */
  lemma {:induction false} ValueAtIsStored(nodes: seq<Node>, path: seq<string>, v: string)
    requires path != [] && UniqueNames(nodes)
    ensures ValueAt(nodes, path) == Some(v) <==> Stored(nodes, path, v)
  {
    if nodes != [] {
      var rest := nodes[1..];
      assert forall i :: 0 <= i < |rest| ==> rest[i] == nodes[i + 1];
      ValueAtIsStored(rest, path, v);
      if nodes[0].name == path[0] {
        BodyValueIsStored(nodes[0].body, path[1..], v);
        assert forall i :: 0 < i < |nodes| ==> nodes[i].name != path[0];
        NameAbsent(rest, path);
      } else if Stored(nodes, path, v) {
        var i :| 0 <= i < |nodes| && nodes[i].name == path[0] && BodyStored(nodes[i].body, path[1..], v);
        assert rest[i - 1] == nodes[i];
      }
    }
  }

  lemma {:induction false} BodyValueIsStored(body: Body, path: seq<string>, v: string)
    requires body.Mapping? ==> UniqueNames(body.children)
    ensures BodyValue(body, path) == Some(v) <==> BodyStored(body, path, v)
  {
    if body.Mapping? && path != [] {
      ValueAtIsStored(body.children, path, v);
    }
  }

  lemma {:induction false} NameAbsent(nodes: seq<Node>, path: seq<string>)
    requires path != [] && forall i :: 0 <= i < |nodes| ==> nodes[i].name != path[0]
    ensures ValueAt(nodes, path) == None
  {
    if nodes != [] {
      NameAbsent(nodes[1..], path);
    }
  }

  // Indentation: a body stands further in than its head

  predicate From(lines: seq<Line>, indent: nat) {
    forall i :: 0 <= i < |lines| && lines[i].Line? ==> lines[i].indent >= indent
  }

  /** The first line that is not blank has this indentation. */
  predicate Opens(lines: seq<Line>, indent: nat) {
    lines == [] || (if lines[0].Blank? then Opens(lines[1..], indent) else lines[0].indent == indent)
  }

  /** The value of the first pair of this indentation and name. */
  function PairAt(lines: seq<Line>, indent: nat, key: string): Option<string> {
    if lines == [] then None
    else if lines[0].Line? && lines[0].indent == indent && lines[0].head.Pair? && lines[0].head.name == key then
      Some(Unquote(lines[0].head.text))
    else PairAt(lines[1..], indent, key)
  }

  lemma {:induction false} PairAtAppend(a: seq<Line>, b: seq<Line>, indent: nat, key: string)
    ensures PairAt(a + b, indent, key) == if PairAt(a, indent, key).Some? then PairAt(a, indent, key) else PairAt(b, indent, key)
  {
    if a == [] {
      assert a + b == b;
    } else {
      assert (a + b)[1..] == a[1..] + b;
      PairAtAppend(a[1..], b, indent, key);
    }
  }

  lemma {:induction false} NoPairFurtherIn(lines: seq<Line>, indent: nat, key: string)
    requires From(lines, indent + 1)
    ensures PairAt(lines, indent, key) == None
  {
    if lines != [] {
      assert forall i :: 0 <= i < |lines[1..]| ==> lines[1..][i] == lines[i + 1];
      NoPairFurtherIn(lines[1..], indent, key);
    }
  }

  lemma {:induction false} OpensAfterBlanks(n: nat, line: Line, rest: seq<Line>)
    requires line.Line?
    ensures Opens(BlankLines(n) + [line] + rest, line.indent)
  {
    var s := BlankLines(n) + [line] + rest;
    if n > 0 {
      assert s[1..] == BlankLines(n - 1) + [line] + rest;
      OpensAfterBlanks(n - 1, line, rest);
    }
  }

  lemma {:induction false} PiecesStand(pieces: seq<Piece>, indent: nat)
    ensures From(PiecesSeen(pieces, indent), indent)
    ensures pieces != [] && pieces[0].extra == 0 ==> Opens(PiecesSeen(pieces, indent), indent)
  {
    if pieces != [] {
      PiecesStand(pieces[1..], indent);
    }
  }

  lemma {:induction false} SeenStands(nodes: seq<Node>, indent: nat)
    requires Valid(nodes)
    ensures From(Seen(nodes, indent), indent) && Opens(Seen(nodes, indent), indent)
  {
    if nodes != [] {
      BodyStands(nodes[0].body, indent);
      SeenStands(nodes[1..], indent);
      NodeStands(|nodes[0].noise|, Line(indent, HeadSeen(nodes[0])), BodySeen(nodes[0].body, indent), Seen(nodes[1..], indent));
    }
  }

  lemma NodeStands(n: nat, line: Line, body: seq<Line>, rest: seq<Line>)
    requires line.Line? && From(body, line.indent) && From(rest, line.indent)
    ensures var lines := BlankLines(n) + [line] + body + rest;
      From(lines, line.indent) && Opens(lines, line.indent)
  {
    assert BlankLines(n) + [line] + body + rest == BlankLines(n) + [line] + (body + rest);
    OpensAfterBlanks(n, line, body + rest);
  }

  lemma {:induction false} BodyStands(body: Body, indent: nat)
    requires ValidBody(body)
    ensures StepOf(body) > 0
    ensures From(BodySeen(body, indent), indent + StepOf(body)) && Opens(BodySeen(body, indent), indent + StepOf(body))
  {
    match body
    case Leaf(_, _) =>
    case Mapping(step, children) => SeenStands(children, indent + step);
    case Listing(step, pieces) => PiecesStand(pieces, indent + step);
  }

  /** The pairs at the indentation of a mapping are its scalars. */
  lemma {:induction false} PairsAreScalars(nodes: seq<Node>, indent: nat, key: string)
    requires Valid(nodes)
    ensures PairAt(Seen(nodes, indent), indent, key) == ValueAt(nodes, [key])
  {
    if nodes != [] {
      var node := nodes[0];
      var body := BodySeen(node.body, indent);
      BodyStands(node.body, indent);
      NoPairFurtherIn(body, indent, key);
      PairsAreScalars(nodes[1..], indent, key);
      NodePair(node, indent, key);
      PairAtAppend(NodeSeen(node, indent), body, indent, key);
      PairAtAppend(NodeSeen(node, indent) + body, Seen(nodes[1..], indent), indent, key);
    }
  }

  lemma NodePair(node: Node, indent: nat, key: string)
    requires ValidBody(node.body)
    ensures PairAt(NodeSeen(node, indent), indent, key) == if node.name == key then BodyValue(node.body, []) else None
  {
    NoPairFurtherIn(BlankLines(|node.noise|), indent, key);
    PairAtAppend(BlankLines(|node.noise|), [Line(indent, HeadSeen(node))], indent, key);
    if node.body.Leaf? {
      ScalarTextSpec(node.body.scalar);
    }
  }

  predicate NoHeadAt(lines: seq<Line>, indent: nat) {
    forall i :: 0 <= i < |lines| && lines[i].Line? && lines[i].indent == indent ==> lines[i].head == Other
  }

  lemma {:induction false} NoPairInList(pieces: seq<Piece>, indent: nat, key: string)
    requires forall i :: 0 <= i < |pieces| && pieces[i].extra == 0 ==> pieces[i].text != "" && pieces[i].text[0] == '-'
    ensures PairAt(PiecesSeen(pieces, indent), indent, key) == None
    ensures NoHeadAt(PiecesSeen(pieces, indent), indent)
  {
    if pieces != [] {
      RStripSpec(Cut(pieces[0].text, None));
      NoPairInList(pieces[1..], indent, key);
    }
  }

  lemma BodyPairs(body: Body, indent: nat, key: string)
    requires ValidBody(body)
    ensures PairAt(BodySeen(body, indent), indent + StepOf(body), key) == BodyValue(body, [key])
  {
    match body
    case Leaf(_, _) =>
    case Mapping(step, children) => PairsAreScalars(children, indent + step, key);
    case Listing(step, pieces) => NoPairInList(pieces, indent + step, key);
  }

  // section_value finds what the tree holds

  lemma {:induction false} SectionRunAppend(section: string, key: string, s: Scan, a: seq<Line>, b: seq<Line>)
    ensures SectionRun(section, key, s, a + b) == SectionRun(section, key, SectionRun(section, key, s, a), b)
    decreases |a|
  {
    if a == [] {
      assert a + b == b;
    } else {
      assert (a + b)[1..] == a[1..] + b;
      SectionRunAppend(section, key, SectionStep(section, key, s, a[0]), a[1..], b);
    }
  }

  lemma {:induction false} SectionNode(section: string, key: string, s: Scan, node: Node, n: nat)
    requires n == |node.noise|
    ensures SectionRun(section, key, s, NodeSeen(node, 0)) == SectionStep(section, key, s, Line(0, HeadSeen(node)))
    decreases n
  {
    SectionBlanks(section, key, s, n);
    SectionRunAppend(section, key, s, BlankLines(n), [Line(0, HeadSeen(node))]);
  }

  lemma {:induction false} SectionBlanks(section: string, key: string, s: Scan, n: nat)
    ensures SectionRun(section, key, s, BlankLines(n)) == s
  {
    if n > 0 {
      assert BlankLines(n)[1..] == BlankLines(n - 1);
      SectionBlanks(section, key, s, n - 1);
    }
  }

  /** Outside the section nothing that is indented matters. */
  lemma {:induction false} SectionOutside(section: string, key: string, s: Scan, lines: seq<Line>)
    requires s.At? && !s.inside && From(lines, 1)
    ensures SectionRun(section, key, s, lines) == s
    decreases |lines|
  {
    if lines != [] {
      assert forall i :: 0 <= i < |lines[1..]| ==> lines[1..][i] == lines[i + 1];
      assert SectionStep(section, key, s, lines[0]) == s;
      SectionOutside(section, key, s, lines[1..]);
    }
  }

  /** Inside the section the first pair at the children's indentation decides. */
  lemma {:induction false} SectionInside(section: string, key: string, child: Option<nat>, lines: seq<Line>, indent: nat)
    requires indent > 0 && From(lines, indent)
    requires child == Some(indent) || (child == None && Opens(lines, indent))
    ensures var found := PairAt(lines, indent, key);
      var r := SectionRun(section, key, At(true, child), lines);
      if found.Some? then r == Found(found.value) else r.At?
    decreases |lines|
  {
    if lines != [] {
      var line := lines[0];
      assert forall i :: 0 <= i < |lines[1..]| ==> lines[1..][i] == lines[i + 1];
      if line.Blank? {
        SectionInside(section, key, child, lines[1..], indent);
      } else if line.indent == indent && line.head.Pair? && line.head.name == key {
        FoundStays(section, key, Unquote(line.head.text), lines[1..]);
      } else {
        assert SectionStep(section, key, At(true, child), line) == At(true, Some(indent));
        SectionInside(section, key, Some(indent), lines[1..], indent);
      }
    }
  }

  lemma {:induction false} SectionBody(section: string, key: string, s: Scan, node: Node)
    requires s.At? && ValidBody(node.body)
    ensures var found := if node.name == section then BodyValue(node.body, [key]) else None;
      var r := SectionRun(section, key, SectionStep(section, key, s, Line(0, HeadSeen(node))), BodySeen(node.body, 0));
      if found.Some? then r == Found(found.value) else r.At?
  {
    BodyStands(node.body, 0);
    BodyPairs(node.body, 0, key);
    if !node.body.Leaf? {
      if node.name == section {
        SectionInside(section, key, None, BodySeen(node.body, 0), StepOf(node.body));
      } else {
        SectionOutside(section, key, At(false, None), BodySeen(node.body, 0));
      }
    }
  }

  lemma {:induction false} SectionFinds(section: string, key: string, s: Scan, nodes: seq<Node>)
    requires s.At? && Valid(nodes)
    ensures var found := ValueAt(nodes, [section, key]);
      var r := SectionRun(section, key, s, Seen(nodes, 0));
      if found.Some? then r == Found(found.value) else r.At?
    decreases |nodes|
  {
    if nodes != [] {
      var node := nodes[0];
      var start, body, rest := NodeSeen(node, 0), BodySeen(node.body, 0), Seen(nodes[1..], 0);
      assert [section, key][1..] == [key];
      SectionRunAppend(section, key, s, start, body);
      SectionRunAppend(section, key, s, start + body, rest);
      SectionNode(section, key, s, node, |node.noise|);
      SectionBody(section, key, s, node);
      var t := SectionRun(section, key, s, start + body);
      if t.Found? {
        FoundStays(section, key, t.value, rest);
      } else {
        SectionFinds(section, key, t, nodes[1..]);
      }
    }
  }

  /** The reader inverts the printer: a value is returned exactly if the tree stores it there. */
  lemma SectionValueReadsTheTree(nodes: seq<Node>, section: string, key: string, v: string)
    requires Valid(nodes) && UniqueNames(nodes)
    ensures SectionResult(Print(nodes, 0), section, key) == Some(v) <==> Stored(nodes, [section, key], v)
  {
    PrintedIsSeen(nodes, 0);
    SectionFinds(section, key, At(false, None), nodes);
    ValueAtIsStored(nodes, [section, key], v);
  }

  // nested_section_value finds what the tree holds

  lemma {:induction false} NestedRunAppend(path: Path, s: NestedScan, a: seq<Line>, b: seq<Line>)
    ensures NestedRun(path, s, a + b) == NestedRun(path, NestedRun(path, s, a), b)
    decreases |a|
  {
    if a == [] {
      assert a + b == b;
    } else {
      assert (a + b)[1..] == a[1..] + b;
      NestedRunAppend(path, NestedStep(path, s, a[0]), a[1..], b);
    }
  }

  lemma {:induction false} NestedBlanks(path: Path, s: NestedScan, n: nat)
    ensures NestedRun(path, s, BlankLines(n)) == s
  {
    if n > 0 {
      assert BlankLines(n)[1..] == BlankLines(n - 1);
      NestedBlanks(path, s, n - 1);
    }
  }

  lemma NestedNode(path: Path, s: NestedScan, node: Node, indent: nat)
    ensures NestedRun(path, s, NodeSeen(node, indent)) == NestedStep(path, s, Line(indent, HeadSeen(node)))
  {
    NestedBlanks(path, s, |node.noise|);
    NestedRunAppend(path, s, BlankLines(|node.noise|), [Line(indent, HeadSeen(node))]);
  }

  lemma {:induction false} NestedOutside(path: Path, s: NestedScan, lines: seq<Line>)
    requires s.NestedAt? && !s.inParent && From(lines, 1)
    ensures NestedRun(path, s, lines) == s
    decreases |lines|
  {
    if lines != [] {
      assert forall i :: 0 <= i < |lines[1..]| ==> lines[1..][i] == lines[i + 1];
      assert NestedStep(path, s, lines[0]) == s;
      NestedOutside(path, s, lines[1..]);
    }
  }

  /** The scan stands among the children of the parent section, which have this indentation. */
  predicate AmongChildren(s: NestedScan, indent: nat) {
    s.NestedAt? && s.inParent && (s.parentIndent == Some(indent) || (s.parentIndent == None && !s.inChild))
  }

  /** Inside the parent but outside the wanted child, nothing further in matters. */
  lemma {:induction false} NestedElsewhere(path: Path, s: NestedScan, lines: seq<Line>, indent: nat)
    requires AmongChildren(s, indent) && !s.inChild && s.parentIndent == Some(indent) && From(lines, indent + 1)
    ensures NestedRun(path, s, lines) == s
    decreases |lines|
  {
    if lines != [] {
      assert forall i :: 0 <= i < |lines[1..]| ==> lines[1..][i] == lines[i + 1];
      assert NestedStep(path, s, lines[0]) == s;
      NestedElsewhere(path, s, lines[1..], indent);
    }
  }

  /** A list under the parent section opens no child. */
  lemma {:induction false} NestedList(path: Path, s: NestedScan, lines: seq<Line>, indent: nat)
    requires indent > 0 && AmongChildren(s, indent) && !s.inChild
    requires From(lines, indent) && NoHeadAt(lines, indent)
    requires s.parentIndent == Some(indent) || Opens(lines, indent)
    ensures var r := NestedRun(path, s, lines); r.NestedAt?
    decreases |lines|
  {
    if lines != [] {
      assert forall i :: 0 <= i < |lines[1..]| ==> lines[1..][i] == lines[i + 1];
      NestedList(path, NestedStep(path, s, lines[0]), lines[1..], indent);
    }
  }

  /** Inside the wanted child the first pair at its indentation decides. */
  lemma {:induction false} NestedInside(path: Path, s: NestedScan, lines: seq<Line>, parent: nat, indent: nat)
    requires s.NestedAt? && s.inParent && s.inChild && s.parentIndent == Some(parent)
    requires 0 < parent < indent && From(lines, indent)
    requires s.childIndent == Some(indent) || (s.childIndent == None && Opens(lines, indent))
    ensures var found := PairAt(lines, indent, path.key);
      var r := NestedRun(path, s, lines);
      if found.Some? then r == NestedFound(found.value) else AmongChildren(r, parent)
    decreases |lines|
  {
    if lines != [] {
      var line := lines[0];
      assert forall i :: 0 <= i < |lines[1..]| ==> lines[1..][i] == lines[i + 1];
      if line.Line? && line.indent == indent && line.head.Pair? && line.head.name == path.key {
        NestedFoundStays(path, Unquote(line.head.text), lines[1..]);
      } else {
        NestedInside(path, NestedStep(path, s, line), lines[1..], parent, indent);
      }
    }
  }

  lemma {:induction false} ChildBody(path: Path, s: NestedScan, node: Node, indent: nat)
    requires indent > 0 && AmongChildren(s, indent) && ValidBody(node.body)
    ensures var found := if node.name == path.child then BodyValue(node.body, [path.key]) else None;
      var r := NestedRun(path, NestedStep(path, s, Line(indent, HeadSeen(node))), BodySeen(node.body, indent));
      if found.Some? then r == NestedFound(found.value) else AmongChildren(r, indent)
  {
    BodyStands(node.body, indent);
    BodyPairs(node.body, indent, path.key);
    var t := NestedStep(path, s, Line(indent, HeadSeen(node)));
    if !node.body.Leaf? && node.name == path.child {
      NestedInside(path, t, BodySeen(node.body, indent), indent, indent + StepOf(node.body));
    } else {
      NestedElsewhere(path, t, BodySeen(node.body, indent), indent);
    }
  }

  lemma {:induction false} NestedChildren(path: Path, s: NestedScan, nodes: seq<Node>, indent: nat)
    requires indent > 0 && AmongChildren(s, indent) && Valid(nodes)
    ensures var found := ValueAt(nodes, [path.child, path.key]);
      var r := NestedRun(path, s, Seen(nodes, indent));
      if found.Some? then r == NestedFound(found.value) else AmongChildren(r, indent)
    decreases |nodes|
  {
    if nodes != [] {
      var node := nodes[0];
      var start, body, rest := NodeSeen(node, indent), BodySeen(node.body, indent), Seen(nodes[1..], indent);
      assert [path.child, path.key][1..] == [path.key];
      NestedRunAppend(path, s, start, body);
      NestedRunAppend(path, s, start + body, rest);
      NestedNode(path, s, node, indent);
      ChildBody(path, s, node, indent);
      var t := NestedRun(path, s, start + body);
      if t.NestedFound? {
        NestedFoundStays(path, t.value, rest);
      } else {
        NestedChildren(path, t, nodes[1..], indent);
      }
    }
  }

  lemma {:induction false} ParentBody(path: Path, s: NestedScan, node: Node)
    requires s.NestedAt? && ValidBody(node.body)
    ensures var found := if node.name == path.parent then BodyValue(node.body, [path.child, path.key]) else None;
      var r := NestedRun(path, NestedStep(path, s, Line(0, HeadSeen(node))), BodySeen(node.body, 0));
      if found.Some? then r == NestedFound(found.value) else r.NestedAt?
  {
    BodyStands(node.body, 0);
    var t := NestedStep(path, s, Line(0, HeadSeen(node)));
    if node.body.Leaf? || node.name != path.parent {
      NestedOutside(path, t, BodySeen(node.body, 0));
    } else if node.body.Mapping? {
      NestedChildren(path, t, node.body.children, node.body.step);
    } else {
      NoPairInList(node.body.pieces, node.body.step, path.key);
      NestedList(path, t, BodySeen(node.body, 0), node.body.step);
    }
  }

  lemma {:induction false} NestedFinds(path: Path, s: NestedScan, nodes: seq<Node>)
    requires s.NestedAt? && Valid(nodes)
    ensures var found := ValueAt(nodes, [path.parent, path.child, path.key]);
      var r := NestedRun(path, s, Seen(nodes, 0));
      if found.Some? then r == NestedFound(found.value) else r.NestedAt?
    decreases |nodes|
  {
    if nodes != [] {
      var node := nodes[0];
      var start, body, rest := NodeSeen(node, 0), BodySeen(node.body, 0), Seen(nodes[1..], 0);
      assert [path.parent, path.child, path.key][1..] == [path.child, path.key];
      NestedRunAppend(path, s, start, body);
      NestedRunAppend(path, s, start + body, rest);
      NestedNode(path, s, node, 0);
      ParentBody(path, s, node);
      var t := NestedRun(path, s, start + body);
      if t.NestedFound? {
        NestedFoundStays(path, t.value, rest);
      } else {
        NestedFinds(path, t, nodes[1..]);
      }
    }
  }

  /** Exactly the scalars three levels down are found, and only by a path with one dot. */
  lemma NestedValueReadsTheTree(nodes: seq<Node>, sectionPath: string, key: string, v: string)
    requires Valid(nodes) && UniqueNames(nodes)
    ensures NestedResult(Print(nodes, 0), sectionPath, key) == Some(v)
       <==> exists parent, child ::
              sectionPath == parent + "." + child && '.' !in parent && '.' !in child && Stored(nodes, [parent, child, key], v)
  {
    var parts := SplitOn(sectionPath, '.');
    if |parts| == 2 {
      TwoParts(sectionPath);
      PrintedIsSeen(nodes, 0);
      NestedFinds(Path(parts[0], parts[1], key), NestedAt(false, false, None, None), nodes);
      ValueAtIsStored(nodes, [parts[0], parts[1], key], v);
    }
    forall parent, child | sectionPath == parent + "." + child && '.' !in parent && '.' !in child
      ensures parts == [parent, child]
    {
      assert Join(".", [parent, child][1..]) == child;
      SplitOnJoined([parent, child], '.');
    }
  }

  lemma TwoParts(s: string)
    requires |SplitOn(s, '.')| == 2
    ensures var parts := SplitOn(s, '.');
      s == parts[0] + "." + parts[1] && '.' !in parts[0] && '.' !in parts[1]
  {
  }

  // What a plain scalar may hold

  lemma {:induction false} CutStops(a: string, b: string, quote: Option<char>)
    requires Cut(a, quote) != a
    ensures Cut(a + b, quote) == Cut(a, quote) && |Cut(a, quote)| < |a|
  {
    assert (a + b)[0] == a[0] && (a + b)[1..] == a[1..] + b;
    if quote.Some? || a[0] != '#' {
      assert a == [a[0]] + a[1..];
      CutStops(a[1..], b, Next(quote, a[0]));
    }
  }

  lemma {:induction false} OpenIsQuote(s: string, quote: Option<char>)
    requires quote.Some? ==> IsQuote(quote.value)
    ensures Open(s, quote).Some? ==> IsQuote(Open(s, quote).value)
  {
    if s != "" {
      OpenIsQuote(s[1..], Next(quote, s[0]));
    }
  }

  /** An open quote swallows the comment. */
  lemma CommentSwallowed(v: string, note: string)
    requires Cut(v, None) == v && Open(v, None).Some?
    ensures var kept := RStrip(Cut(v + (" #" + note), None));
      |kept| > |v| + 1 && kept[|v| + 1] == '#'
  {
    var q := Open(v, None);
    OpenIsQuote(v, None);
    CutAppend(v, " #" + note, None);
    var tail := " #" + note;
    assert tail[0] == ' ' && tail[1..] == "#" + note && (tail[1..])[1..] == note;
    assert Next(q, ' ') == q && Next(q, '#') == q;
    assert Cut(tail, q) == [' '] + Cut(tail[1..], q);
    assert Cut(tail[1..], q) == ['#'] + Cut(note, q);
    var more := ['#'] + Cut(note, q);
    assert v + Cut(tail, q) == (v + " ") + more;
    RStripAfter(v + " ", more);
    RStripSpec(more);
  }

  lemma UnquoteSpec(kept: string, v: string)
    ensures Unquote(kept) == v ==> |v| <= |kept| <= |v| + 2
    ensures |kept| > |v| + 1 && kept[|v| + 1] == '#' ==> Unquote(kept) != v
    ensures Unquote(v) == v <==> !Wrapped(v)
  {
  }

  lemma KeptExactlyIf(v: string, note: string)
    requires v != "" && Trimmed(v)
    ensures Unquote(RStrip(Cut(v + (" #" + note), None))) == v <==> Closed(v) && !Wrapped(v)
  {
    var kept := RStrip(Cut(v + (" #" + note), None));
    UnquoteSpec(kept, v);
    if Cut(v, None) != v {
      CutStops(v, " #" + note, None);
      RStripSpec(Cut(v, None));
      assert |kept| < |v|;
    } else if Open(v, None).Some? {
      CommentSwallowed(v, note);
    } else {
      BlankThenComment(note);
      CommentCut(v, " #" + note);
    }
  }

  lemma BlankThenComment(note: string)
    ensures BlankOrComment(" #" + note)
  {
  }

  lemma EntryLine(indent: nat, name: string, x: string)
    requires IsName(name) && x != "" && !IsSpace(x[0])
    ensures LineOf(RStrip(Spaces(indent) + (name + "" + ":" + " ") + x)) == Line(indent, Pair(name, RStrip(x)))
  {
    RStripAfter(Spaces(indent) + (name + "" + ":" + " "), x);
    RStripSpec(x);
    Regroup(Spaces(indent), name + "" + ":", " ", RStrip(x));
    TrimmedEntryLine(indent, name, RStrip(x));
  }

  lemma Regroup(a: string, b: string, c: string, d: string)
    ensures a + (b + c) + d == a + (b + (c + d))
  {
  }

  lemma TrimmedEntryLine(indent: nat, name: string, value: string)
    requires IsName(name) && value != "" && Trimmed(value)
    ensures LineOf(Spaces(indent) + (name + "" + ":" + (" " + value))) == Line(indent, Pair(name, value))
  {
    HeadOfName(name, "", " " + value);
    BlankThenValue(value);
    LineOfText(indent, name + "" + ":" + (" " + value));
  }

  lemma BlankThenValue(value: string)
    requires value != "" && Trimmed(value)
    ensures Strip(" " + value) == value
  {
    RStripBlanks(" " + value, "");
    assert " " + value + "" == " " + value;
    LStripBlanks(" ", value);
  }

  lemma EmptyEntryLine(indent: nat, name: string)
    requires IsName(name)
    ensures LineOf(RStrip(Spaces(indent) + (name + "" + ":" + " "))) == Line(indent, Header(name))
  {
    var text := name + "" + ":" + "";
    HeadOfName(name, "", "");
    LineOfText(indent, text);
    assert Spaces(indent) + (name + "" + ":" + " ") == Spaces(indent) + text + " ";
    RStripBlanks(Spaces(indent) + text, " ");
  }

  lemma EntryIsClosed(indent: nat, name: string)
    requires IsName(name)
    ensures Closed(Spaces(indent) + (name + "" + ":" + " "))
  {
    LabelIsClosed(name, "");
    PlainIsClosed(" ");
    SpacesAreBlanks(indent);
    ClosedAppend(name + "" + ":", " ");
    ClosedAppend(Spaces(indent), name + "" + ":" + " ");
  }

  /**
    Before a comment a plain scalar is read back exactly if it holds no `#` outside quotes,
    leaves no quote open and is not itself wrapped in a pair of quotes.
   */
  lemma PlainReadsBackExactlyIf(indent: nat, name: string, v: string, note: string)
    requires IsName(name) && v != "" && Trimmed(v)
    ensures var line := Read(Spaces(indent) + (name + ": ") + (v + (" #" + note)));
      (line.Line? && line.head.Pair? && Unquote(line.head.text) == v) <==> Closed(v) && !Wrapped(v)
  {
    assert name + ": " == name + "" + ":" + " ";
    var start := Spaces(indent) + (name + ": ");
    var x := Cut(v + (" #" + note), None);
    EntryIsClosed(indent, name);
    CutAppend(start, v + (" #" + note), None);
    KeptExactlyIf(v, note);
    if v[0] == '#' {
      assert x == "" && start + x == start;
      EmptyEntryLine(indent, name);
    } else {
      assert x[0] == v[0];
      EntryLine(indent, name, x);
    }
  }
}
