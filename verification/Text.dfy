/** The string operations of the source, on sequences of characters. */
module Text {
  /** `sep.join(parts)`. */
  function Join(sep: string, parts: seq<string>): string {
    if parts == [] then ""
    else if |parts| == 1 then parts[0]
    else parts[0] + sep + Join(sep, parts[1..])
  }

  /** `pattern in s`. */
  predicate ContainsText(s: string, pattern: string) {
    pattern <= s || (s != "" && ContainsText(s[1..], pattern))
  }

  /** `s.replace(pattern, by, 1)` for a pattern that is not empty. */
  function ReplaceFirst(s: string, pattern: string, text: string): string {
    if |s| < |pattern| || s == "" then s
    else if pattern <= s then text + s[|pattern|..]
    else [s[0]] + ReplaceFirst(s[1..], pattern, text)
  }

  lemma PrefixWithinLine(a: string, rest: string, pattern: string)
    requires '\n' !in pattern && pattern <= a + "\n" + rest
    ensures pattern <= a
  {
    assert (a + "\n" + rest)[|a|] == '\n';
    assert forall i :: 0 <= i < |a| ==> (a + "\n" + rest)[i] == a[i];
  }

  /** A newline fences a pattern without newlines: the search passes over a text that lacks it. */
  lemma {:induction false} ReplacePastLine(a: string, rest: string, pattern: string, text: string)
    requires pattern != "" && '\n' !in pattern && !ContainsText(a, pattern)
    ensures ReplaceFirst(a + "\n" + rest, pattern, text) == a + "\n" + ReplaceFirst(rest, pattern, text)
    decreases |a|
  {
    var s := a + "\n" + rest;
    if pattern <= s {
      PrefixWithinLine(a, rest, pattern);
      assert false;
    }
    if a == "" {
      assert s == ['\n'] + rest && s[1..] == rest;
      if |s| < |pattern| {
        assert |rest| < |pattern|;
      }
    } else {
      assert s[1..] == a[1..] + "\n" + rest;
      ReplacePastLine(a[1..], rest, pattern, text);
      if |s| >= |pattern| {
        assert ReplaceFirst(s, pattern, text) == [a[0]] + (a[1..] + "\n" + ReplaceFirst(rest, pattern, text));
      } else {
        assert |rest| < |pattern|;
      }
    }
  }

  /** Replacing in a text of blank-line separated parts fills the first part that is the pattern. */
  lemma {:induction false} ReplaceFillsPart(parts: seq<string>, i: nat, pattern: string, text: string)
    requires i < |parts| && parts[i] == pattern
    requires pattern != "" && '\n' !in pattern
    requires forall k :: 0 <= k < i ==> !ContainsText(parts[k], pattern)
    ensures ReplaceFirst(Join("\n\n", parts), pattern, text) == Join("\n\n", parts[i := text])
  {
    var filled := parts[i := text];
    if i == 0 {
      assert filled[1..] == parts[1..];
      assert pattern <= Join("\n\n", parts);
    } else {
      var rest := Join("\n\n", parts[1..]);
      assert !ContainsText(parts[0], pattern);
      assert Join("\n\n", parts) == parts[0] + "\n" + ("" + "\n" + rest);
      ReplacePastLine(parts[0], "" + "\n" + rest, pattern, text);
      assert !ContainsText("", pattern);
      ReplacePastLine("", rest, pattern, text);
      ReplaceFillsPart(parts[1..], i - 1, pattern, text);
      assert filled[1..] == parts[1..][i - 1 := text];
    }
  }

  /** Nothing before the pattern can start it: the search lands on the pattern. */
  lemma {:induction false} ReplaceLands(a: string, pattern: string, rest: string, text: string)
    requires pattern != "" && pattern[0] !in a
    ensures ReplaceFirst(a + pattern + rest, pattern, text) == a + text + rest
  {
    var s := a + pattern + rest;
    if a == "" {
      assert s[|pattern|..] == rest;
    } else {
      assert s[1..] == a[1..] + pattern + rest;
      assert s[0] == a[0];
      ReplaceLands(a[1..], pattern, rest, text);
    }
  }

  /** Where the pattern first stands, or past the end. */
  function FirstMatch(s: string, pattern: string): (q: nat)
    requires pattern != ""
  {
    if pattern <= s then 0 else if s == "" then 1 else 1 + FirstMatch(s[1..], pattern)
  }

  /** The first match is what gets replaced. */
  lemma {:induction false} FirstMatchSpec(s: string, pattern: string, text: string) returns (hit: bool, a: string, rest: string)
    requires pattern != ""
    ensures hit <==> FirstMatch(s, pattern) <= |s|
    ensures hit ==> s == a + pattern + rest && ReplaceFirst(s, pattern, text) == a + text + rest && |a| == FirstMatch(s, pattern)
    ensures !hit ==> ReplaceFirst(s, pattern, text) == s
  {
    if pattern <= s {
      hit, a, rest := true, "", s[|pattern|..];
      assert "" + pattern + rest == s && "" + text + rest == text + rest;
    } else if s == "" {
      hit, a, rest := false, "", "";
    } else {
      var b;
      hit, b, rest := FirstMatchSpec(s[1..], pattern, text);
      a := [s[0]] + b;
      assert [s[0]] + s[1..] == s;
      Prepended(s[0], b, pattern, rest);
      Prepended(s[0], b, text, rest);
    }
  }

  lemma Prepended(c: char, a: string, b: string, rest: string)
    ensures [c] + (a + b + rest) == [c] + a + b + rest
  {
  }

  lemma {:induction false} MatchesComeLater(s: string, pattern: string, r: nat)
    requires pattern != "" && r <= |s| && pattern <= s[r..]
    ensures FirstMatch(s, pattern) <= r
  {
    if !(pattern <= s) {
      assert r > 0 by {
        assert s[0..] == s;
      }
      assert s[1..][r - 1..] == s[r..];
      MatchesComeLater(s[1..], pattern, r - 1);
    }
  }

  /** Where a text that is contained stands. */
  lemma {:induction false} Occurrence(s: string, pattern: string) returns (r: nat)
    requires ContainsText(s, pattern)
    ensures r <= |s| && pattern <= s[r..]
  {
    if pattern <= s {
      r := 0;
      assert s[0..] == s;
    } else {
      r := Occurrence(s[1..], pattern);
      assert s[1..][r..] == s[r + 1..];
      r := r + 1;
    }
  }

  lemma {:induction false} ContainedAt(s: string, pattern: string, r: nat)
    requires r <= |s| && pattern <= s[r..]
    ensures ContainsText(s, pattern)
  {
    if r == 0 {
      assert s[0..] == s;
    } else {
      assert s[1..][r - 1..] == s[r..];
      ContainedAt(s[1..], pattern, r - 1);
    }
  }

  lemma ContainsWithin(a: string, b: string, c: string, pattern: string)
    requires ContainsText(b, pattern)
    ensures ContainsText(a + b + c, pattern)
  {
    var r := Occurrence(b, pattern);
    assert (a + b + c)[|a| + r..] == b[r..] + c;
    ContainedAt(a + b + c, pattern, |a| + r);
  }

  lemma {:induction false} JoinSplit(sep: string, a: seq<string>, b: seq<string>)
    requires a != [] && b != []
    ensures Join(sep, a + b) == Join(sep, a) + sep + Join(sep, b)
  {
    if |a| == 1 {
      assert (a + b)[1..] == b;
    } else {
      assert (a + b)[1..] == a[1..] + b;
      JoinSplit(sep, a[1..], b);
      assert a[0] + sep + (Join(sep, a[1..]) + sep + Join(sep, b)) == a[0] + sep + Join(sep, a[1..]) + sep + Join(sep, b);
    }
  }

  lemma {:induction false} JoinContains(sep: string, parts: seq<string>, i: nat, pattern: string)
    requires i < |parts| && ContainsText(parts[i], pattern)
    ensures ContainsText(Join(sep, parts), pattern)
  {
    if |parts| > 1 {
      var rest := Join(sep, parts[1..]);
      if i == 0 {
        ContainsWithin("", parts[0], sep + rest, pattern);
        assert "" + parts[0] + (sep + rest) == Join(sep, parts);
      } else {
        JoinContains(sep, parts[1..], i - 1, pattern);
        ContainsWithin(parts[0] + sep, rest, "", pattern);
        assert parts[0] + sep + rest + "" == Join(sep, parts);
      }
    }
  }

  // Stripping

  predicate IsSpace(c: char) {
    c == ' ' || c == '\t' || c == '\n' || c == '\r' || c == '\U{000B}' || c == '\U{000C}'
  }

  function LStrip(s: string): string {
    if s != "" && IsSpace(s[0]) then LStrip(s[1..]) else s
  }

  function RStrip(s: string): string {
    if s != "" && IsSpace(s[|s| - 1]) then RStrip(s[..|s| - 1]) else s
  }

  function Strip(s: string): string {
    LStrip(RStrip(s))
  }

  /** Neither end is a blank. */
  predicate Trimmed(s: string) {
    s == "" || (!IsSpace(s[0]) && !IsSpace(s[|s| - 1]))
  }

  lemma {:induction false} LStripSpec(s: string)
    ensures LStrip(s) == "" || (!IsSpace(LStrip(s)[0]) && LStrip(s)[|LStrip(s)| - 1] == s[|s| - 1])
    ensures |LStrip(s)| <= |s| && s[|s| - |LStrip(s)|..] == LStrip(s)
    ensures forall c :: c in LStrip(s) ==> c in s
  {
    if s != "" && IsSpace(s[0]) {
      LStripSpec(s[1..]);
    }
  }

  lemma {:induction false} RStripSpec(s: string)
    ensures RStrip(s) == "" || (!IsSpace(RStrip(s)[|RStrip(s)| - 1]) && RStrip(s)[0] == s[0])
    ensures RStrip(s) <= s
    ensures s != "" && !IsSpace(s[0]) ==> RStrip(s) != ""
  {
    if s != "" && IsSpace(s[|s| - 1]) {
      RStripSpec(s[..|s| - 1]);
    }
  }

  /** Stripping trims, takes characters only from the ends, and leaves a trimmed text alone. */
  lemma StripSpec(s: string)
    ensures Trimmed(Strip(s))
    ensures forall c :: c in Strip(s) ==> c in s
    ensures Trimmed(s) ==> Strip(s) == s
    ensures s != "" && !IsSpace(s[0]) ==> Strip(s) != "" && Strip(s)[0] == s[0]
  {
    RStripSpec(s);
    LStripSpec(RStrip(s));
  }

  // Lines

  /** Where `c` first stands in `s`, or the length of `s`. */
  function IndexOf(s: string, c: char): (i: nat)
    ensures i <= |s| && c !in s[..i]
    ensures i < |s| ==> s[i] == c
  {
    if s == "" || s[0] == c then 0
    else
      var i := 1 + IndexOf(s[1..], c);
      assert s[..i] == [s[0]] + s[1..][..i - 1];
      i
  }

  lemma {:induction false} IndexOfFirst(a: string, c: char, b: string)
    requires c !in a
    ensures IndexOf(a + [c] + b, c) == |a| == IndexOf(a, c)
  {
    if a != "" {
      assert (a + [c] + b)[1..] == a[1..] + [c] + b;
      IndexOfFirst(a[1..], c, b);
    }
  }

  /** `splitlines` for texts whose only line break is the newline. */
  function SplitLines(s: string): seq<string>
    decreases |s|
  {
    if s == "" then []
    else
      var i := IndexOf(s, '\n');
      if i == |s| then [s] else [s[..i]] + SplitLines(s[i + 1..])
  }

  predicate SingleLines(lines: seq<string>) {
    forall i :: 0 <= i < |lines| ==> '\n' !in lines[i]
  }

  lemma {:induction false} SplitLinesAreSingle(s: string)
    ensures SingleLines(SplitLines(s))
    decreases |s|
  {
    if s != "" {
      var i := IndexOf(s, '\n');
      if i == |s| {
        assert s[..i] == s;
      } else {
        SplitLinesAreSingle(s[i + 1..]);
      }
    }
  }

  /** Lines joined by newlines, with one at the end, split back into themselves. */
  lemma {:induction false} SplitJoined(lines: seq<string>)
    requires lines != [] && SingleLines(lines)
    ensures SplitLines(Join("\n", lines) + "\n") == lines
  {
    var head, rest := lines[0], lines[1..];
    if rest == [] {
      IndexOfFirst(head, '\n', "");
      assert head + ['\n'] + "" == Join("\n", lines) + "\n";
      assert (head + "\n")[..|head|] == head && (head + "\n")[|head| + 1..] == "";
    } else {
      assert forall i :: 0 <= i < |rest| ==> rest[i] == lines[i + 1];
      var tail := Join("\n", rest) + "\n";
      var s := head + ['\n'] + tail;
      assert Join("\n", lines) + "\n" == s;
      IndexOfFirst(head, '\n', tail);
      assert s[..|head|] == head && s[|head| + 1..] == tail;
      SplitJoined(rest);
    }
  }

  /** `s.split(c)`: the parts between the occurrences of `c`, empty ones included. */
  function SplitOn(s: string, c: char): (parts: seq<string>)
    ensures parts != []
    decreases |s|
  {
    var i := IndexOf(s, c);
    if i == |s| then [s] else [s[..i]] + SplitOn(s[i + 1..], c)
  }

  /** No part holds the separator. */
  lemma {:induction false} SplitOnParts(s: string, c: char)
    ensures forall i :: 0 <= i < |SplitOn(s, c)| ==> c !in SplitOn(s, c)[i]
    decreases |s|
  {
    var i := IndexOf(s, c);
    if i == |s| {
      assert s[..i] == s;
    } else {
      var rest := SplitOn(s[i + 1..], c);
      SplitOnParts(s[i + 1..], c);
      var parts := SplitOn(s, c);
      assert parts == [s[..i]] + rest;
      forall k | 0 <= k < |parts| ensures c !in parts[k] {
        assert parts[k] == if k == 0 then s[..i] else rest[k - 1];
      }
    }
  }

  /** The parts take their characters from `s`. */
  lemma {:induction false} SplitOnAddsNothing(s: string, c: char, x: char)
    requires x !in s
    ensures forall i :: 0 <= i < |SplitOn(s, c)| ==> x !in SplitOn(s, c)[i]
    decreases |s|
  {
    var i := IndexOf(s, c);
    if i < |s| {
      SplitOnAddsNothing(s[i + 1..], c, x);
    }
  }

  /** Splitting undoes joining for parts without the separator. */
  lemma {:induction false} SplitOnJoined(parts: seq<string>, c: char)
    requires parts != [] && forall i :: 0 <= i < |parts| ==> c !in parts[i]
    ensures SplitOn(Join([c], parts), c) == parts
  {
    var head, rest := parts[0], parts[1..];
    if rest == [] {
      IndexOfFirst(head, c, "");
    } else {
      var tail := Join([c], rest);
      var s := head + [c] + tail;
      IndexOfFirst(head, c, tail);
      assert s[..|head|] == head && s[|head| + 1..] == tail;
      SplitOnJoined(rest, c);
    }
  }
}
