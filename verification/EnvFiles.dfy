/** Reading a `.env` file and merging pairs into it without disturbing its other lines. */
module EnvFiles {
  import opened Wrappers
  import opened OrderedDicts
  import opened Text

  datatype Pair = Pair(key: string, value: string)

  /** What a line assigns, if it is neither blank nor a comment and has an equals sign. */
  function ParseLine(line: string): Option<Pair> {
    var s := Strip(line);
    if s == "" || s[0] == '#' then None
    else
      var i := IndexOf(s, '=');
      if i == |s| then None else Some(Pair(Strip(s[..i]), Strip(s[i + 1..])))
  }

  function ReadLines(lines: seq<string>): map<string, string> {
    if lines == [] then map[]
    else
      var before := ReadLines(lines[..|lines| - 1]);
      match ParseLine(lines[|lines| - 1])
      case None => before
      case Some(p) => before[p.key := p.value]
  }

  function Line(key: string, value: string): string {
    key + "=" + value
  }

  /** An assigning line is rewritten if its key is among the pairs; any other line is kept. */
  function Rewritten(line: string, pairs: Dict<string, string>): string {
    match ParseLine(line)
    case None => line
    case Some(p) => if Has(pairs, p.key) then Line(p.key, Get(pairs, p.key).value) else line
  }

  function RewrittenLines(lines: seq<string>, pairs: Dict<string, string>): seq<string> {
    seq(|lines|, i requires 0 <= i < |lines| => Rewritten(lines[i], pairs))
  }

  /** Lines for the pairs whose key is not in `present`, in the order of the pairs. */
  function Missing(pairs: Dict<string, string>, present: set<string>): seq<string> {
    if pairs == [] then []
    else
      var last := pairs[|pairs| - 1];
      Missing(pairs[..|pairs| - 1], present) + (if last.key in present then [] else [Line(last.key, last.value)])
  }

  function Written(lines: seq<string>, pairs: Dict<string, string>): seq<string> {
    RewrittenLines(lines, pairs) + Missing(pairs, ReadLines(lines).Keys)
  }

  function Content(lines: seq<string>): string {
    Join("\n", lines) + "\n"
  }

  // The functions of the source

  function LinesOf(file: Option<string>): seq<string> {
    if file.None? then [] else SplitLines(file.value)
  }

  method ReadEnvFile(file: Option<string>) returns (result: map<string, string>)
    ensures result == ReadLines(LinesOf(file))
  {
    result := map[];
    if file.None? {
      return;
    }
    var lines := SplitLines(file.value);
    for i := 0 to |lines|
      invariant result == ReadLines(lines[..i])
    {
      assert lines[..i + 1][..i] == lines[..i];
      var line := Strip(lines[i]);
      if line == "" || line[0] == '#' {
        continue;
      }
      var eq := IndexOf(line, '=');
      if eq < |line| {
        result := result[Strip(line[..eq]) := Strip(line[eq + 1..])];
      }
    }
    assert lines[..|lines|] == lines;
  }

  method WriteEnvFile(file: Option<string>, pairs: Dict<string, string>) returns (content: string)
    ensures content == Content(Written(LinesOf(file), pairs))
  {
    var lines := LinesOf(file);
    var newLines, updated := UpdateLines(lines, pairs);
    ghost var present := ReadLines(lines).Keys;
    for i := 0 to |pairs|
      invariant newLines == RewrittenLines(lines, pairs) + Missing(pairs[..i], present)
    {
      assert pairs[..i + 1][..i] == pairs[..i];
      assert Has(pairs, pairs[i].key);
      if pairs[i].key !in updated {
        newLines := newLines + [Line(pairs[i].key, pairs[i].value)];
      }
    }
    assert pairs[..|pairs|] == pairs;
    content := Join("\n", newLines) + "\n";
  }

  /** The first loop of `write_env_file`. */
  method UpdateLines(lines: seq<string>, pairs: Dict<string, string>) returns (newLines: seq<string>, updated: set<string>)
    ensures newLines == RewrittenLines(lines, pairs)
    ensures forall k :: k in updated <==> k in ReadLines(lines) && Has(pairs, k)
  {
    updated, newLines := {}, [];
    for i := 0 to |lines|
      invariant newLines == RewrittenLines(lines[..i], pairs)
      invariant forall k :: k in updated <==> k in ReadLines(lines[..i]) && Has(pairs, k)
    {
      assert lines[..i + 1][..i] == lines[..i];
      assert RewrittenLines(lines[..i + 1], pairs) == RewrittenLines(lines[..i], pairs) + [Rewritten(lines[i], pairs)];
      var stripped := Strip(lines[i]);
      if stripped != "" && stripped[0] != '#' && IndexOf(stripped, '=') < |stripped| {
        var key := Strip(stripped[..IndexOf(stripped, '=')]);
        var value := Get(pairs, key);
        if value.Some? {
          newLines := newLines + [Line(key, value.value)];
          updated := updated + {key};
          continue;
        }
      }
      newLines := newLines + [lines[i]];
    }
    assert lines[..|lines|] == lines;
  }

  // What a pair needs

  /** A trimmed key without an equals sign that does not begin a comment, and a trimmed value. */
  predicate Plain(key: string, value: string) {
    Trimmed(key) && Trimmed(value) && '=' !in key && (key != "" ==> key[0] != '#')
  }

  lemma PlainReadsBack(key: string, value: string)
    requires Plain(key, value)
    ensures ParseLine(Line(key, value)) == Some(Pair(key, value))
  {
    var line := Line(key, value);
    assert line == key + ['='] + value;
    assert Trimmed(line);
    StripSpec(line);
    IndexOfFirst(key, '=', value);
    assert line[..|key|] == key && line[|key| + 1..] == value;
    StripSpec(key);
    StripSpec(value);
  }

  lemma ParsedIsTrimmed(line: string)
    requires ParseLine(line).Some?
    ensures Trimmed(ParseLine(line).value.key) && Trimmed(ParseLine(line).value.value)
    ensures '=' !in ParseLine(line).value.key
  {
    var s := Strip(line);
    var i := IndexOf(s, '=');
    StripSpec(s[..i]);
    StripSpec(s[i + 1..]);
  }

  lemma CommentsAssignNothing(line: string)
    requires line != "" && line[0] == '#'
    ensures ParseLine(line) == None
  {
    StripSpec(line);
  }

  /** A written pair reads back as itself exactly if it is plain. */
  lemma PairReadsBackExactlyIfPlain(key: string, value: string)
    ensures ParseLine(Line(key, value)) == Some(Pair(key, value)) <==> Plain(key, value)
  {
    if Plain(key, value) {
      PlainReadsBack(key, value);
    } else if ParseLine(Line(key, value)) == Some(Pair(key, value)) {
      ParsedIsTrimmed(Line(key, value));
      if key != "" && key[0] == '#' {
        CommentsAssignNothing(Line(key, value));
      }
    }
  }

  ghost predicate PlainPairs(pairs: Dict<string, string>) {
    Unique(pairs) && forall i :: 0 <= i < |pairs| ==> Plain(pairs[i].key, pairs[i].value)
  }

  lemma PlainGet(pairs: Dict<string, string>, key: string)
    requires PlainPairs(pairs) && Has(pairs, key)
    ensures ParseLine(Line(key, Get(pairs, key).value)) == Some(Pair(key, Get(pairs, key).value))
  {
    PairReadsBackExactlyIfPlain(key, Get(pairs, key).value);
  }

  // Reading what was written

  function Lookup(m: map<string, string>, key: string): Option<string> {
    if key in m then Some(m[key]) else None
  }

  lemma {:induction false} RewrittenReads(lines: seq<string>, pairs: Dict<string, string>, key: string)
    requires PlainPairs(pairs)
    ensures Lookup(ReadLines(RewrittenLines(lines, pairs)), key) ==
            if Has(pairs, key) && key in ReadLines(lines) then Get(pairs, key) else Lookup(ReadLines(lines), key)
  {
    if lines != [] {
      var init, last := lines[..|lines| - 1], lines[|lines| - 1];
      RewrittenReads(init, pairs, key);
      assert RewrittenLines(lines, pairs)[..|lines| - 1] == RewrittenLines(init, pairs);
      var p := ParseLine(last);
      if p.Some? && Has(pairs, p.value.key) {
        PlainGet(pairs, p.value.key);
      }
    }
  }

  lemma {:induction false} MissingReads(lines: seq<string>, pairs: Dict<string, string>, present: set<string>, key: string)
    requires PlainPairs(pairs)
    ensures Lookup(ReadLines(lines + Missing(pairs, present)), key) ==
            if Has(pairs, key) && key !in present then Get(pairs, key) else Lookup(ReadLines(lines), key)
  {
    if pairs == [] {
      assert lines + Missing(pairs, present) == lines;
    } else {
      var n := |pairs| - 1;
      var init, last := pairs[..n], pairs[n];
      MissingReads(lines, init, present, key);
      LastSpec(pairs, key);
      var before := lines + Missing(init, present);
      if last.key in present {
        assert lines + Missing(pairs, present) == before;
      } else {
        AppendedReads(before, last.key, last.value);
        assert lines + Missing(pairs, present) == before + [Line(last.key, last.value)];
      }
    }
  }

  lemma AppendedReads(lines: seq<string>, key: string, value: string)
    requires Plain(key, value)
    ensures ReadLines(lines + [Line(key, value)]) == ReadLines(lines)[key := value]
  {
    PlainReadsBack(key, value);
    var after := lines + [Line(key, value)];
    assert after[..|after| - 1] == lines;
  }

  /** Reading after writing gives the old mapping overridden by the pairs. */
  lemma WrittenReads(lines: seq<string>, pairs: Dict<string, string>, key: string)
    requires PlainPairs(pairs)
    ensures Lookup(ReadLines(Written(lines, pairs)), key) ==
            if Has(pairs, key) then Get(pairs, key) else Lookup(ReadLines(lines), key)
  {
    RewrittenReads(lines, pairs, key);
    MissingReads(RewrittenLines(lines, pairs), pairs, ReadLines(lines).Keys, key);
  }

  /** Every line that assigns none of the pairs is kept verbatim and in its place. */
  lemma OtherLinesStay(lines: seq<string>, pairs: Dict<string, string>, i: nat)
    requires i < |lines|
    ensures i < |Written(lines, pairs)|
    ensures !(ParseLine(lines[i]).Some? && Has(pairs, ParseLine(lines[i]).value.key)) ==>
            Written(lines, pairs)[i] == lines[i]
  {
  }

  // Writing twice

  lemma {:induction false} MissingIsStable(all: Dict<string, string>, pairs: Dict<string, string>, present: set<string>)
    requires PlainPairs(all) && pairs <= all
    ensures RewrittenLines(Missing(pairs, present), all) == Missing(pairs, present)
  {
    if pairs != [] {
      var n := |pairs| - 1;
      MissingIsStable(all, pairs[..n], present);
      var last := pairs[n];
      assert all[n] == last;
      GetAt(all, n);
      PlainGet(all, last.key);
      var m := Missing(pairs[..n], present);
      if last.key !in present {
        assert RewrittenLines(m + [Line(last.key, last.value)], all) == RewrittenLines(m, all) + [Line(last.key, last.value)];
      }
    }
  }

  lemma {:induction false} NothingMissing(pairs: Dict<string, string>, present: set<string>)
    requires forall i :: 0 <= i < |pairs| ==> pairs[i].key in present
    ensures Missing(pairs, present) == []
  {
    if pairs != [] {
      NothingMissing(pairs[..|pairs| - 1], present);
    }
  }

  /** Writing the same pairs again changes nothing. */
  lemma WritingTwice(lines: seq<string>, pairs: Dict<string, string>)
    requires PlainPairs(pairs)
    ensures Written(Written(lines, pairs), pairs) == Written(lines, pairs)
  {
    var once := Written(lines, pairs);
    var kept, added := RewrittenLines(lines, pairs), Missing(pairs, ReadLines(lines).Keys);
    forall i | 0 <= i < |kept| ensures Rewritten(kept[i], pairs) == kept[i] {
      var p := ParseLine(lines[i]);
      if p.Some? && Has(pairs, p.value.key) {
        PlainGet(pairs, p.value.key);
      }
    }
    MissingIsStable(pairs, pairs, ReadLines(lines).Keys);
    assert RewrittenLines(once, pairs) == kept + RewrittenLines(added, pairs) == once;
    forall i | 0 <= i < |pairs| ensures pairs[i].key in ReadLines(once) {
      WrittenReads(lines, pairs, pairs[i].key);
      assert Has(pairs, pairs[i].key);
    }
    NothingMissing(pairs, ReadLines(once).Keys);
    assert once + [] == once;
  }

  // Whole files

  ghost predicate SingleLinePairs(pairs: Dict<string, string>) {
    forall i :: 0 <= i < |pairs| ==> '\n' !in pairs[i].key && '\n' !in pairs[i].value
  }

  lemma {:induction false} MissingAreSingle(pairs: Dict<string, string>, present: set<string>)
    requires SingleLinePairs(pairs)
    ensures SingleLines(Missing(pairs, present))
  {
    if pairs != [] {
      MissingAreSingle(pairs[..|pairs| - 1], present);
    }
  }

  lemma WrittenAreSingle(lines: seq<string>, pairs: Dict<string, string>)
    requires SingleLines(lines) && SingleLinePairs(pairs)
    ensures SingleLines(Written(lines, pairs))
  {
    MissingAreSingle(pairs, ReadLines(lines).Keys);
    forall i | 0 <= i < |lines| ensures '\n' !in Rewritten(lines[i], pairs) {
      var p := ParseLine(lines[i]);
      if p.Some? && Has(pairs, p.value.key) {
        var j :| 0 <= j < |pairs| && pairs[j] == Item(p.value.key, Get(pairs, p.value.key).value);
        assert '\n' !in pairs[j].key && '\n' !in pairs[j].value;
      }
    }
  }

  lemma LinesComeBack(lines: seq<string>)
    requires SingleLines(lines)
    ensures LinesOf(Some(Content(lines))) == if lines == [] then [""] else lines
  {
    if lines == [] {
      assert SplitLines("\n") == [""] + SplitLines("");
    } else {
      SplitJoined(lines);
    }
  }

  /** The round trip through the file: what is read, and that writing once is enough. */
  lemma FileRoundTrip(file: Option<string>, pairs: Dict<string, string>, key: string)
    requires PlainPairs(pairs) && SingleLinePairs(pairs)
    ensures var content := Content(Written(LinesOf(file), pairs));
      && Lookup(ReadLines(LinesOf(Some(content))), key) ==
         (if Has(pairs, key) then Get(pairs, key) else Lookup(ReadLines(LinesOf(file)), key))
      && Content(Written(LinesOf(Some(content)), pairs)) == content
  {
    var lines := LinesOf(file);
    if file.Some? {
      SplitLinesAreSingle(file.value);
    }
    WrittenAreSingle(lines, pairs);
    var written := Written(lines, pairs);
    LinesComeBack(written);
    WrittenReads(lines, pairs, key);
    if written == [] {
      NoLinesWritten(lines, pairs);
    } else {
      WritingTwice(lines, pairs);
    }
  }

  lemma NoLinesWritten(lines: seq<string>, pairs: Dict<string, string>)
    requires Written(lines, pairs) == []
    ensures pairs == [] && Written([""], pairs) == [""] && ReadLines([""]) == map[]
  {
  }
}
