/**
  Feishu's `receive_file`: the paths of downloaded files take the place of their placeholders
  in the text of a batch.
 */
module FeishuFiles {
  import opened FeishuBatches
  import opened Text

  /** Each path in turn replaces the first occurrence of its mark; an empty mark is skipped. */
  function Filled(marks: seq<string>, paths: seq<string>, text: string): string
    requires |paths| == |marks|
  {
    if marks == [] then text
    else Filled(marks[1..], paths[1..], if marks[0] == "" then text else ReplaceFirst(text, marks[0], paths[0]))
  }

  function Placeholders(files: seq<File>): seq<string> {
    seq(|files|, i requires 0 <= i < |files| => Placeholder(files[i]))
  }

  /** `receive_file`; `paths[i]` is what downloading the i-th file returns. */
  method ReceiveFile(hasThread: bool, text: string, files: seq<File>, paths: seq<string>) returns (result: string)
    requires |paths| == |files|
    ensures result == if hasThread then Filled(Placeholders(files), paths, text) else text
  {
    result := text;
    if !hasThread || files == [] {
      return;
    }
    ghost var marks := Placeholders(files);
    for i := 0 to |files|
      invariant Filled(marks[i..], paths[i..], result) == Filled(marks, paths, text)
    {
      assert marks[i..][1..] == marks[i + 1..] && paths[i..][1..] == paths[i + 1..];
      assert marks[i..][0] == Placeholder(files[i]);
      if files[i].Image? {
        result := ReplaceFirst(result, "[image]", paths[i]);
      } else if files[i].Document? {
        result := ReplaceFirst(result, "[file]", paths[i]);
      }
    }
  }

  /** A mark that a search through blank-line separated parts cannot find across two parts. */
  predicate PlainMark(mark: string) {
    mark != "" && '\n' !in mark
  }

  lemma {:induction false} FilledFrom(marks: seq<string>, paths: seq<string>, done: nat, parts: seq<string>)
    requires |marks| == |paths| == |parts| && done <= |marks|
    requires forall i :: 0 <= i < |marks| ==> PlainMark(marks[i])
    requires forall i, j :: 0 <= i < j < |marks| ==> !ContainsText(paths[i], marks[j])
    requires parts == paths[..done] + marks[done..]
    ensures Filled(marks[done..], paths[done..], Join("\n\n", parts)) == Join("\n\n", paths)
    decreases |marks| - done
  {
    if done == |marks| {
      assert parts == paths;
    } else {
      assert PlainMark(marks[done]);
      var mark := marks[done];
      forall k | 0 <= k < done ensures !ContainsText(parts[k], mark) {
        assert parts[k] == paths[k];
      }
      assert parts[done] == mark;
      ReplaceFillsPart(parts, done, mark, paths[done]);
      assert marks[done..][1..] == marks[done + 1..] && paths[done..][1..] == paths[done + 1..];
      assert parts[done := paths[done]] == paths[..done + 1] + marks[done + 1..];
      FilledFrom(marks, paths, done + 1, parts[done := paths[done]]);
    }
  }

  lemma {:induction false} BatchHoldsPlaceholders(xs: seq<Arrival>)
    requires forall i :: 0 <= i < |xs| ==> Batchable(xs[i].message)
    ensures Placeholders(Files(xs)) == Texts(xs)
    ensures forall i :: 0 <= i < |xs| ==> PlainMark(Texts(xs)[i])
  {
    if xs != [] {
      var l := |xs| - 1;
      var init, last := xs[..l], xs[l].message;
      BatchHoldsPlaceholders(init);
      assert Batchable(last);
      OnePlaceholder(last);
      PlaceholdersPlus(Files(init), last.files[0]);
      assert Files(xs) == Files(init) + [last.files[0]];
      assert Texts(xs) == Texts(init) + [last.text];
    }
  }

  lemma OnePlaceholder(m: Message)
    requires Batchable(m)
    ensures m.files == [m.files[0]] && m.text == Placeholder(m.files[0]) && PlainMark(m.text)
  {
  }

  lemma PlaceholdersPlus(files: seq<File>, f: File)
    ensures Placeholders(files + [f]) == Placeholders(files) + [Placeholder(f)]
  {
  }

  /**
    Receiving the files of a batch puts every path at its own placeholder and leaves nothing
    else, provided no path contains the placeholder of a later file.
   */
  lemma BatchFilesLandInPlace(n: nat, r: Record, paths: seq<string>)
    requires GoodRecord(n, r) && |paths| == |r.batch.files|
    requires forall i, j :: 0 <= i < j < |paths| ==> !ContainsText(paths[i], Placeholder(r.batch.files[j]))
    ensures Filled(Placeholders(r.batch.files), paths, r.batch.text) == Join("\n\n", paths)
  {
    BatchHoldsPlaceholders(r.members);
    var marks := Placeholders(r.batch.files);
    AllFilled(marks, paths);
  }

  lemma AllFilled(marks: seq<string>, paths: seq<string>)
    requires |marks| == |paths|
    requires forall i :: 0 <= i < |marks| ==> PlainMark(marks[i])
    requires forall i, j :: 0 <= i < j < |marks| ==> !ContainsText(paths[i], marks[j])
    ensures Filled(marks, paths, Join("\n\n", marks)) == Join("\n\n", paths)
  {
    assert marks[0..] == marks && paths[0..] == paths && paths[..0] + marks[0..] == marks;
    FilledFrom(marks, paths, 0, marks);
  }

  const FAILURE_INTRO := "Failed to obtain the "

  /** A failed download returns a text that ends in the placeholder, so the next path lands in it. */
  lemma FailedDownloadMisplaces(f: File, path: string)
    requires !f.Unkeyed?
    ensures var mark := Placeholder(f);
      Filled([mark, mark], [FAILURE_INTRO + mark, path], Join("\n\n", [mark, mark]))
      == FAILURE_INTRO + path + "\n\n" + mark
  {
    SecondPathLandsInFirst(Placeholder(f), FAILURE_INTRO, path);
  }

  lemma SecondPathLandsInFirst(mark: string, intro: string, path: string)
    requires mark != "" && mark[0] !in intro
    ensures Filled([mark, mark], [intro + mark, path], Join("\n\n", [mark, mark])) == intro + path + "\n\n" + mark
  {
    var failed, rest := intro + mark, "\n\n" + mark;
    TwoMarks(mark);
    ReplaceLands("", mark, rest, failed);
    ReplaceLands(intro, mark, rest, path);
    FilledTwice(mark, failed, path, "" + mark + rest);
    assert "" + failed + rest == intro + mark + rest;
    Regroup(intro + path, "\n\n", mark);
  }

  lemma TwoMarks(mark: string)
    ensures Join("\n\n", [mark, mark]) == "" + mark + ("\n\n" + mark)
  {
    assert [mark, mark][1..] == [mark];
  }

  lemma FilledTwice(mark: string, a: string, b: string, text: string)
    requires mark != ""
    ensures Filled([mark, mark], [a, b], text) == ReplaceFirst(ReplaceFirst(text, mark, a), mark, b)
  {
    var one := ReplaceFirst(text, mark, a);
    assert [mark, mark][1..] == [mark] && [a, b][1..] == [b];
    assert Filled([mark], [b], one) == Filled([], [], ReplaceFirst(one, mark, b));
  }

  // When every path lands in its place

  const OPENING := '['

  /** Not empty and not beginning like a placeholder; true of virtual paths and of failure texts. */
  predicate FairPath(path: string) {
    path != "" && path[0] != OPENING
  }

  predicate Mark(mark: string) {
    mark != "" && mark[0] == OPENING && '\n' !in mark
  }

  /** The first difference from the wanted text stands where that has an opening bracket. */
  ghost predicate Spoilt(text: string, wanted: string) {
    exists p :: SpoiltAt(text, wanted, p)
  }

  predicate SpoiltAt(text: string, wanted: string, p: nat) {
    p < |text| && p < |wanted| && text[..p] == wanted[..p] && wanted[p] == OPENING && text[p] != OPENING
  }

  lemma SpoiltDiffers(text: string, wanted: string)
    requires Spoilt(text, wanted)
    ensures text != wanted
  {
  }

  lemma ReplaceKeepsSpoilt(text: string, wanted: string, mark: string, path: string)
    requires Spoilt(text, wanted) && Mark(mark) && FairPath(path)
    ensures Spoilt(ReplaceFirst(text, mark, path), wanted)
  {
    var p: nat :| SpoiltAt(text, wanted, p);
    var hit, a, rest := FirstMatchSpec(text, mark, path);
    if hit {
      MarkStands(a, mark, rest);
      MarkStands(a, path, rest);
      SpoiltMoves(text, wanted, ReplaceFirst(text, mark, path), p, |a|);
    }
  }

  lemma MarkStands(a: string, b: string, rest: string)
    requires b != ""
    ensures var s := a + b + rest; |s| > |a| && s[..|a|] == a && s[|a|] == b[0]
  {
  }

  /** A text that is spoilt at `p` and changes from `q` on: it is spoilt at the earlier of the two. */
  lemma SpoiltMoves(text: string, wanted: string, after: string, p: nat, q: nat)
    requires SpoiltAt(text, wanted, p) && q < |text| && q < |after|
    requires text[..q] == after[..q] && text[q] == OPENING && after[q] != OPENING
    ensures Spoilt(after, wanted)
  {
    var r := if q < p then q else p;
    assert q != p;
    assert text[..r] == text[..p][..r] == wanted[..p][..r] == wanted[..r];
    assert after[..r] == after[..q][..r] == text[..q][..r] == text[..r];
    if q < p {
      assert wanted[q] == wanted[..p][q] == text[..p][q];
    } else {
      assert after[p] == after[..q][p] == text[..q][p];
    }
    assert SpoiltAt(after, wanted, r);
  }

  lemma {:induction false} FilledStaysSpoilt(marks: seq<string>, paths: seq<string>, text: string, wanted: string)
    requires |marks| == |paths| && Spoilt(text, wanted)
    requires forall i :: 0 <= i < |marks| ==> Mark(marks[i]) && FairPath(paths[i])
    ensures Spoilt(Filled(marks, paths, text), wanted)
  {
    if marks != [] {
      ReplaceKeepsSpoilt(text, wanted, marks[0], paths[0]);
      FilledStaysSpoilt(marks[1..], paths[1..], ReplaceFirst(text, marks[0], paths[0]), wanted);
    }
  }

  /** A mark inside the parts already filled is hit first, and the text is spoilt there. */
  lemma HitTooEarly(head: string, rest: string, wantedRest: string, mark: string, path: string)
    requires Mark(mark) && FairPath(path) && ContainsText(head, mark)
    ensures Spoilt(ReplaceFirst(head + rest, mark, path), head + wantedRest)
  {
    var text := head + rest;
    var r := Occurrence(head, mark);
    assert text[r..] == head[r..] + rest;
    MatchesComeLater(text, mark, r);
    var hit, a, tail := FirstMatchSpec(text, mark, path);
    MarkStands(a, mark, tail);
    MarkStands(a, path, tail);
    SpoiltInHead(head, rest, wantedRest, ReplaceFirst(text, mark, path), |a|);
  }

  lemma SpoiltInHead(head: string, rest: string, wantedRest: string, after: string, q: nat)
    requires q < |head| && q < |after| && after[..q] == (head + rest)[..q]
    requires (head + rest)[q] == OPENING && after[q] != OPENING
    ensures Spoilt(after, head + wantedRest)
  {
    assert SpoiltAt(after, head + wantedRest, q);
  }

  /** No path already in place holds a mark that is still to come. */
  predicate NoneHit(marks: seq<string>, paths: seq<string>, from: nat)
    requires |marks| == |paths|
  {
    forall i, j :: 0 <= i < j < |marks| && from <= j ==> !ContainsText(paths[i], marks[j])
  }

  lemma {:induction false} FilledExactlyFrom(marks: seq<string>, paths: seq<string>, done: nat, parts: seq<string>)
    requires |marks| == |paths| && done <= |marks|
    requires forall i :: 0 <= i < |marks| ==> Mark(marks[i]) && FairPath(paths[i])
    requires parts == paths[..done] + marks[done..]
    requires !NoneHit(marks, paths, done)
    ensures Spoilt(Filled(marks[done..], paths[done..], Join("\n\n", parts)), Join("\n\n", paths))
    decreases |marks| - done
  {
    var mark, wanted := marks[done], Join("\n\n", paths);
    assert marks[done..][0] == mark && paths[done..][0] == paths[done];
    assert marks[done..][1..] == marks[done + 1..] && paths[done..][1..] == paths[done + 1..];
    var after := ReplaceFirst(Join("\n\n", parts), mark, paths[done]);
    if i :| 0 <= i < done && ContainsText(paths[i], mark) {
      PlacedPartIsHit(marks, paths, done, parts, i);
      FilledStaysSpoilt(marks[done + 1..], paths[done + 1..], after, wanted);
    } else {
      forall k | 0 <= k < done ensures !ContainsText(parts[k], mark) {
        assert parts[k] == paths[k];
      }
      assert parts[done] == mark;
      ReplaceFillsPart(parts, done, mark, paths[done]);
      assert parts[done := paths[done]] == paths[..done + 1] + marks[done + 1..];
      var i, j :| 0 <= i < j < |marks| && done <= j && ContainsText(paths[i], marks[j]);
      assert j != done;
      assert !NoneHit(marks, paths, done + 1);
      FilledExactlyFrom(marks, paths, done + 1, parts[done := paths[done]]);
    }
  }

  lemma PlacedPartIsHit(marks: seq<string>, paths: seq<string>, done: nat, parts: seq<string>, i: nat)
    requires |marks| == |paths| && i < done < |marks| && Mark(marks[done]) && FairPath(paths[done])
    requires parts == paths[..done] + marks[done..] && ContainsText(paths[i], marks[done])
    ensures Spoilt(ReplaceFirst(Join("\n\n", parts), marks[done], paths[done]), Join("\n\n", paths))
  {
    var placed := paths[..done];
    assert paths == placed + paths[done..] && placed[i] == paths[i];
    JoinSplit("\n\n", placed, marks[done..]);
    JoinSplit("\n\n", placed, paths[done..]);
    JoinContains("\n\n", placed, i, marks[done]);
    var placedText := Join("\n\n", placed);
    var toCome, wanted := Join("\n\n", marks[done..]), Join("\n\n", paths[done..]);
    HitTooEarly(placedText, "\n\n" + toCome, "\n\n" + wanted, marks[done], paths[done]);
    Regroup(placedText, "\n\n", toCome);
    Regroup(placedText, "\n\n", wanted);
  }

  lemma Regroup(a: string, b: string, c: string)
    ensures a + b + c == a + (b + c)
  {
  }

  /** For any marks and fair paths: every path lands in its place exactly if none holds the mark of a later one. */
  lemma FilledExactlyIf(marks: seq<string>, paths: seq<string>)
    requires |marks| == |paths| && forall i :: 0 <= i < |marks| ==> Mark(marks[i]) && FairPath(paths[i])
    ensures Filled(marks, paths, Join("\n\n", marks)) == Join("\n\n", paths)
       <==> forall i, j :: 0 <= i < j < |marks| ==> !ContainsText(paths[i], marks[j])
  {
    if NoneHit(marks, paths, 0) {
      AllFilled(marks, paths);
    } else {
      SomeHit(marks, paths);
    }
  }

  lemma SomeHit(marks: seq<string>, paths: seq<string>)
    requires |marks| == |paths| && forall i :: 0 <= i < |marks| ==> Mark(marks[i]) && FairPath(paths[i])
    requires !NoneHit(marks, paths, 0)
    ensures Filled(marks, paths, Join("\n\n", marks)) != Join("\n\n", paths)
  {
    assert marks[0..] == marks && paths[0..] == paths && paths[..0] + marks[0..] == marks;
    FilledExactlyFrom(marks, paths, 0, marks);
    SpoiltDiffers(Filled(marks, paths, Join("\n\n", marks)), Join("\n\n", paths));
  }

  lemma BatchMarks(n: nat, r: Record)
    requires GoodRecord(n, r)
    ensures var marks := Placeholders(r.batch.files);
      r.batch.text == Join("\n\n", marks) && forall i :: 0 <= i < |marks| ==> Mark(marks[i])
  {
    BatchHoldsPlaceholders(r.members);
    forall i | 0 <= i < |r.members| ensures Mark(Texts(r.members)[i]) {
      assert Batchable(r.members[i].message);
    }
  }

  /**
    Receiving the files of a batch puts every path at its own placeholder and leaves nothing
    else, exactly if no path contains the placeholder of a later file.
   */
  lemma BatchFilesLandExactlyIf(n: nat, r: Record, paths: seq<string>)
    requires GoodRecord(n, r) && |paths| == |r.batch.files| && forall i :: 0 <= i < |paths| ==> FairPath(paths[i])
    ensures Filled(Placeholders(r.batch.files), paths, r.batch.text) == Join("\n\n", paths)
       <==> forall i, j :: 0 <= i < j < |paths| ==> !ContainsText(paths[i], Placeholder(r.batch.files[j]))
  {
    BatchMarks(n, r);
    var marks := Placeholders(r.batch.files);
    FilledExactlyIf(marks, paths);
    assert forall j :: 0 <= j < |marks| ==> marks[j] == Placeholder(r.batch.files[j]);
  }

  /** What a failed download of a file returns. */
  function FailureText(f: File): string {
    FAILURE_INTRO + Placeholder(f)
  }

  lemma MarkAfterIntro(intro: string, mark: string, other: string)
    requires OPENING !in intro && mark != "" && mark[0] == OPENING && OPENING !in mark[1..]
    requires other != "" && other[0] == OPENING
    ensures ContainsText(intro + mark, other) <==> other <= mark
  {
    var s := intro + mark;
    assert s[|intro|..] == mark;
    forall k | |intro| < k < |s| ensures s[k] != OPENING {
      assert s[k] == mark[1..][k - |intro| - 1];
    }
    if ContainsText(s, other) {
      var r := Occurrence(s, other);
      assert s[r] == s[r..][0] == OPENING;
    }
    if other <= mark {
      ContainedAt(s, other, |intro|);
    }
  }

  lemma MarksDiffer(f: File, g: File)
    requires !f.Unkeyed? && !g.Unkeyed?
    ensures OPENING !in Placeholder(f)[1..] && Placeholder(f)[0] == OPENING
    ensures Placeholder(g) <= Placeholder(f) <==> Placeholder(f) == Placeholder(g)
  {
    assert Placeholder(f)[1] == if f.Image? then 'i' else 'f';
    assert Placeholder(g)[1] == if g.Image? then 'i' else 'f';
  }

  /** A failure text holds the placeholder of its own kind and no other. */
  lemma FailureHoldsItsKind(f: File, g: File)
    requires !f.Unkeyed? && !g.Unkeyed?
    ensures ContainsText(FailureText(f), Placeholder(g)) <==> Placeholder(f) == Placeholder(g)
  {
    MarksDiffer(f, g);
    MarksDiffer(g, f);
    MarkAfterIntro(FAILURE_INTRO, Placeholder(f), Placeholder(g));
  }

  /** Downloads that fail put the paths out of place exactly if one is followed by a file of its kind. */
  lemma FailedDownloadsMisplaceExactlyIf(n: nat, r: Record, paths: seq<string>, failed: set<nat>)
    requires GoodRecord(n, r) && |paths| == |r.batch.files|
    requires forall i :: 0 <= i < |paths| ==>
      if i in failed then paths[i] == FailureText(r.batch.files[i])
      else FairPath(paths[i]) && !ContainsText(paths[i], "[image]") && !ContainsText(paths[i], "[file]")
    ensures Filled(Placeholders(r.batch.files), paths, r.batch.text) == Join("\n\n", paths)
       <==> forall i, j :: 0 <= i < j < |paths| && i in failed ==>
              Placeholder(r.batch.files[i]) != Placeholder(r.batch.files[j])
  {
    BatchMarks(n, r);
    var files := r.batch.files;
    forall i | 0 <= i < |paths| ensures FairPath(paths[i]) && !files[i].Unkeyed? {
      assert Mark(Placeholders(files)[i]);
    }
    BatchFilesLandExactlyIf(n, r, paths);
    forall i, j | 0 <= i < j < |paths|
      ensures ContainsText(paths[i], Placeholder(files[j])) <==> i in failed && Placeholder(files[i]) == Placeholder(files[j])
    {
      if i in failed {
        FailureHoldsItsKind(files[i], files[j]);
      }
    }
  }
}
