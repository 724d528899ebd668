/**
  scripts/migrate_user_isolation.py: legacy directories move into the per-user layout. The
  file system is a tree below the base directory.
 */
module Migration {
  import opened Wrappers

  type Path = seq<string>

  datatype Tree = File(content: string) | Dir(entries: map<string, Tree>)

  function Lookup(t: Tree, p: Path): Option<Tree>
    decreases |p|
  {
    if p == [] then Some(t)
    else if t.Dir? && p[0] in t.entries then Lookup(t.entries[p[0]], p[1..])
    else None
  }

  predicate Exists(t: Tree, p: Path) {
    Lookup(t, p).Some?
  }

  predicate IsDir(t: Tree, p: Path) {
    Lookup(t, p).Some? && Lookup(t, p).value.Dir?
  }

  /** The text of the file at `p`, if a file is there. */
  function Content(t: Tree, p: Path): Option<string> {
    var found := Lookup(t, p);
    if found.Some? && found.value.File? then Some(found.value.content) else None
  }

  /** Every parent of `p` is a directory or can be made. */
  predicate Clear(t: Tree, p: Path)
    decreases |p|
  {
    p == [] || (t.Dir? && (p[0] in t.entries ==> Clear(t.entries[p[0]], p[1..])))
  }

  /** `sub` put at `p`, with the parents made where they are missing. */
  function Place(t: Tree, p: Path, sub: Tree): Tree
    decreases |p|
  {
    if p == [] then sub
    else
      var entries := if t.Dir? then t.entries else map[];
      var child := if p[0] in entries then entries[p[0]] else Dir(map[]);
      Dir(entries[p[0] := Place(child, p[1..], sub)])
  }

  function Remove(t: Tree, p: Path): Tree
    decreases |p|
  {
    if p == [] || !t.Dir? || p[0] !in t.entries then t
    else if |p| == 1 then Dir(t.entries - {p[0]})
    else Dir(t.entries[p[0] := Remove(t.entries[p[0]], p[1..])])
  }

  /** Neither path lies below the other. */
  predicate Apart(p: Path, q: Path) {
    !(p <= q) && !(q <= p)
  }

  lemma Tails(p: Path, q: Path)
    requires p != [] && q != [] && p[0] == q[0]
    ensures p <= q <==> p[1..] <= q[1..]
    ensures q <= p <==> q[1..] <= p[1..]
  {
  }

  lemma {:induction false} PlaceSpec(t: Tree, p: Path, sub: Tree, q: Path)
    requires Clear(t, p)
    ensures p <= q ==> Lookup(Place(t, p, sub), q) == Lookup(sub, q[|p|..])
    ensures Apart(p, q) ==> Lookup(Place(t, p, sub), q) == Lookup(t, q)
    ensures !(p <= q) ==> Content(Place(t, p, sub), q) == Content(t, q)
    decreases |p|
  {
    if p != [] && q != [] && p[0] == q[0] {
      Tails(p, q);
      var child := if p[0] in t.entries then t.entries[p[0]] else Dir(map[]);
      PlaceSpec(child, p[1..], sub, q[1..]);
      if p <= q {
        assert q[1..][|p[1..]|..] == q[|p|..];
      }
    }
  }

  lemma {:induction false} RemoveSpec(t: Tree, p: Path, q: Path)
    requires p != []
    ensures p <= q ==> Lookup(Remove(t, p), q) == None
    ensures Apart(p, q) ==> Lookup(Remove(t, p), q) == Lookup(t, q)
    ensures !(p <= q) ==> Content(Remove(t, p), q) == Content(t, q)
    decreases |p|
  {
    if q != [] && p[0] == q[0] && t.Dir? && p[0] in t.entries && |p| > 1 {
      Tails(p, q);
      RemoveSpec(t.entries[p[0]], p[1..], q[1..]);
    } else if q != [] && p[0] == q[0] {
      Tails(p, q);
      NothingBelow(t, p, q);
    }
  }

  lemma {:induction false} NothingBelow(t: Tree, p: Path, q: Path)
    ensures p <= q && !Exists(t, p) ==> !Exists(t, q)
    decreases |p|
  {
    if p != [] && q != [] && p[0] == q[0] && t.Dir? && p[0] in t.entries {
      Tails(p, q);
      NothingBelow(t.entries[p[0]], p[1..], q[1..]);
    }
  }

  lemma {:induction false} ClearAfterPlace(t: Tree, p: Path, sub: Tree, q: Path)
    requires Clear(t, q) && Clear(t, p) && Apart(p, q)
    ensures Clear(Place(t, p, sub), q)
    decreases |p|
  {
    if p[0] == q[0] {
      Tails(p, q);
      var child := if p[0] in t.entries then t.entries[p[0]] else Dir(map[]);
      ClearAfterPlace(child, p[1..], sub, q[1..]);
    }
  }

  lemma {:induction false} ClearAfterRemove(t: Tree, p: Path, q: Path)
    requires Clear(t, q)
    ensures Clear(Remove(t, p), q)
    decreases |p|
  {
    if p != [] && q != [] && p[0] == q[0] && t.Dir? && p[0] in t.entries && |p| > 1 {
      ClearAfterRemove(t.entries[p[0]], p[1..], q[1..]);
    }
  }

  lemma {:induction false} LookupJoin(t: Tree, p: Path, q: Path)
    requires Exists(t, p)
    ensures Lookup(t, p + q) == Lookup(Lookup(t, p).value, q)
    decreases |p|
  {
    if p == [] {
      assert p + q == q;
    } else {
      assert (p + q)[1..] == p[1..] + q;
      LookupJoin(t.entries[p[0]], p[1..], q);
    }
  }

  lemma {:induction false} ClearInside(t: Tree, p: Path, name: string)
    requires IsDir(t, p)
    ensures Clear(t, p + [name])
    decreases |p|
  {
    if p != [] {
      assert (p + [name])[1..] == p[1..] + [name];
      ClearInside(t.entries[p[0]], p[1..], name);
    }
  }

  // One move

  /** Where `shutil.move` really puts a directory: below the destination if that is a directory. */
  function RealTarget(t: Tree, target: Path, name: string): Path {
    if IsDir(t, target) then target + [name] else target
  }

  /** `target.parent.mkdir(parents=True)` and `shutil.move`; `None` is an exception. */
  function Moved(t: Tree, source: Path, target: Path): Option<Tree>
    requires source != [] && Exists(t, source)
  {
    var put := RealTarget(t, target, source[|source| - 1]);
    if !Clear(t, target) || Exists(t, put) then None
    else Some(Place(Remove(t, source), put, Lookup(t, source).value))
  }

  lemma RealTargetIsClear(t: Tree, target: Path, name: string)
    requires Clear(t, target)
    ensures Clear(t, RealTarget(t, target, name))
  {
    if IsDir(t, target) {
      ClearInside(t, target, name);
    }
  }

  lemma ApartBelow(p: Path, q: Path, r: Path)
    requires Apart(p, q)
    ensures Apart(p, q + r) && Apart(p + r, q)
  {
  }

  /** A move takes the whole directory to its target and changes nothing else. */
  lemma MovedSpec(t: Tree, source: Path, target: Path, q: Path)
    requires source != [] && Exists(t, source) && Apart(source, target) && Moved(t, source, target).Some?
    ensures var r := Moved(t, source, target).value;
      var put := RealTarget(t, target, source[|source| - 1]);
      && (put <= q ==> Lookup(r, q) == Lookup(t, source + q[|put|..]))
      && (source <= q ==> Lookup(r, q) == None)
      && (Apart(put, q) && Apart(source, q) ==> Lookup(r, q) == Lookup(t, q))
      && (!(put <= q) && !(source <= q) ==> Content(r, q) == Content(t, q))
  {
    var put := RealTarget(t, target, source[|source| - 1]);
    RealTargetIsClear(t, target, source[|source| - 1]);
    ApartBelow(source, target, [source[|source| - 1]]);
    ClearAfterRemove(t, source, put);
    PlaceSpec(Remove(t, source), put, Lookup(t, source).value, q);
    RemoveSpec(t, source, q);
    if put <= q {
      LookupJoin(t, source, q[|put|..]);
    }
    if source <= q {
      ApartBelow(source, put, []);
      assert q == source + q[|source|..];
      ApartBelow(put, source, q[|source|..]);
    }
  }

  lemma ClearAfterMove(t: Tree, source: Path, target: Path, q: Path)
    requires source != [] && Exists(t, source) && Moved(t, source, target).Some?
    requires Clear(t, q) && Apart(RealTarget(t, target, source[|source| - 1]), q)
    ensures Clear(Moved(t, source, target).value, q)
  {
    var put := RealTarget(t, target, source[|source| - 1]);
    RealTargetIsClear(t, target, source[|source| - 1]);
    ClearAfterRemove(t, source, put);
    ClearAfterRemove(t, source, q);
    ClearAfterPlace(Remove(t, source), put, Lookup(t, source).value, q);
  }

  // Layouts

  /** Where one kind of legacy directory lies, and where each of them goes. */
  datatype Layout = Layout(legacy: Path, dest: string -> Path, conflict: string -> Path, hidden: bool)

  /** The directory of a thread goes to the thread's owner. */
  function ThreadLayout(owner: string -> string): Layout {
    Layout(
      ["threads"],
      name => ["users", owner(name), "threads", name],
      name => ["migration-conflicts", name],
      false)
  }

  /** Agents are stored under their lower-case name. */
  function AgentLayout(user: string, lower: string -> string): Layout {
    Layout(
      ["agents"],
      name => ["users", user, "agents", lower(name)],
      name => ["migration-conflicts", "agents", name],
      false)
  }

  /** Skills: the history moves first, other hidden directories stay. */
  function SkillLayout(user: string): Layout {
    Layout(
      ["skills", "custom"],
      name => ["users", user, "skills", "custom", name],
      name => ["migration-conflicts", "skills", name],
      true)
  }

  const HISTORY := ".history"

  function Legacy(l: Layout, name: string): Path {
    l.legacy + [name]
  }

  /** Distinct slots do not lie in one another, and none of them is a legacy directory. */
  ghost predicate PathsApart(l: Layout, n: string, m: string) {
    && Apart(l.legacy, l.dest(m)) && Apart(l.legacy, l.conflict(m))
    && Apart(l.dest(n), l.conflict(m))
    && (n != m ==> Apart(l.conflict(n), l.conflict(m)) && Apart(Legacy(l, n), Legacy(l, m)))
    && (l.dest(n) != l.dest(m) ==> Apart(l.dest(n), l.dest(m)))
  }

  ghost predicate Sound(l: Layout) {
    forall n, m :: PathsApart(l, n, m)
  }

  lemma ApartAt(p: Path, q: Path, i: nat)
    requires i < |p| && i < |q| && p[i] != q[i]
    ensures Apart(p, q)
  {
  }

  lemma RootsDiffer(l: Layout, n: string, m: string)
    requires l.legacy != [] && l.dest(n) != [] && l.dest(m) != [] && l.conflict(m) != []
    requires l.legacy[0] != l.dest(m)[0] && l.legacy[0] != l.conflict(m)[0] && l.dest(n)[0] != l.conflict(m)[0]
    ensures Apart(l.legacy, l.dest(m)) && Apart(l.legacy, l.conflict(m)) && Apart(l.dest(n), l.conflict(m))
  {
  }

  lemma ThreadPathsApart(owner: string -> string, n: string, m: string)
    ensures PathsApart(ThreadLayout(owner), n, m)
    ensures n != m ==> ThreadLayout(owner).dest(n) != ThreadLayout(owner).dest(m)
  {
    var l := ThreadLayout(owner);
    RootsDiffer(l, n, m);
    assert l.dest(n)[3] == n && l.dest(m)[3] == m;
    if n != m {
      ApartAt(l.conflict(n), l.conflict(m), 1);
      ApartAt(Legacy(l, n), Legacy(l, m), 1);
      ApartAt(l.dest(n), l.dest(m), 3);
    }
  }

  lemma AgentPathsApart(user: string, lower: string -> string, n: string, m: string)
    ensures PathsApart(AgentLayout(user, lower), n, m)
    ensures lower(n) != lower(m) ==> AgentLayout(user, lower).dest(n) != AgentLayout(user, lower).dest(m)
  {
    var l := AgentLayout(user, lower);
    RootsDiffer(l, n, m);
    assert l.dest(n)[3] == lower(n) && l.dest(m)[3] == lower(m);
    if n != m {
      ApartAt(l.conflict(n), l.conflict(m), 2);
      ApartAt(Legacy(l, n), Legacy(l, m), 1);
    }
    if lower(n) != lower(m) {
      ApartAt(l.dest(n), l.dest(m), 3);
    }
  }

  lemma SkillPathsApart(user: string, n: string, m: string)
    ensures PathsApart(SkillLayout(user), n, m)
    ensures n != m ==> SkillLayout(user).dest(n) != SkillLayout(user).dest(m)
  {
    var l := SkillLayout(user);
    RootsDiffer(l, n, m);
    assert l.dest(n)[4] == n && l.dest(m)[4] == m;
    if n != m {
      ApartAt(l.conflict(n), l.conflict(m), 2);
      ApartAt(Legacy(l, n), Legacy(l, m), 2);
      ApartAt(l.dest(n), l.dest(m), 4);
    }
  }

  /** The three layouts keep their slots apart. */
  lemma LayoutsAreSound(owner: string -> string, user: string, lower: string -> string)
    ensures Sound(ThreadLayout(owner)) && Sound(AgentLayout(user, lower)) && Sound(SkillLayout(user))
  {
    forall n, m ensures PathsApart(ThreadLayout(owner), n, m) {
      ThreadPathsApart(owner, n, m);
    }
    forall n, m ensures PathsApart(AgentLayout(user, lower), n, m) {
      AgentPathsApart(user, lower, n, m);
    }
    forall n, m ensures PathsApart(SkillLayout(user), n, m) {
      SkillPathsApart(user, n, m);
    }
  }

  // A whole migration

  /** A report entry; the text of its action is made from these. */
  datatype Entry = Entry(name: string, conflict: bool, target: Path)

  datatype Outcome = Outcome(tree: Tree, report: seq<Entry>, ok: bool)

  function EntryFor(l: Layout, name: string, taken: bool): Entry {
    if taken then Entry(name, true, l.conflict(name)) else Entry(name, false, l.dest(name))
  }

  predicate IsLegacy(l: Layout, t: Tree, name: string) {
    IsDir(t, Legacy(l, name)) && !(l.hidden && name != "" && name[0] == '.')
  }

  /** The directories to move, in the order of the listing. */
  function Names(l: Layout, t: Tree, listing: seq<string>): seq<string> {
    if listing == [] then []
    else (if IsLegacy(l, t, listing[0]) then [listing[0]] else []) + Names(l, t, listing[1..])
  }

  /** Each directory in turn: to its owner's slot if that is free, to the conflict slot otherwise. */
  function Steps(l: Layout, t: Tree, names: seq<string>): Outcome
    decreases |names|
  {
    if names == [] then Outcome(t, [], true)
    else
      var entry := EntryFor(l, names[0], Exists(t, l.dest(names[0])));
      if !Exists(t, Legacy(l, names[0])) then Outcome(t, [], false)
      else
        var moved := Moved(t, Legacy(l, names[0]), entry.target);
        if moved.None? then Outcome(t, [], false)
        else
          var rest := Steps(l, moved.value, names[1..]);
          rest.(report := [entry] + rest.report)
  }

  function DryReport(l: Layout, t: Tree, names: seq<string>): seq<Entry> {
    if names == [] then []
    else [EntryFor(l, names[0], Exists(t, l.dest(names[0])))] + DryReport(l, t, names[1..])
  }

  /** The history, if it moves. */
  function HistoryNames(l: Layout, t: Tree): seq<string> {
    if l.hidden && IsDir(t, Legacy(l, HISTORY)) then [HISTORY] else []
  }

  function WithoutEmpty(t: Tree, p: Path): Tree {
    if Lookup(t, p) == Some(Dir(map[])) then Remove(t, p) else t
  }

  function Migrated(l: Layout, t: Tree, listing: seq<string>): Outcome {
    if !Exists(t, l.legacy) then Outcome(t, [], true)
    else
      var history := Steps(l, t, HistoryNames(l, t));
      if !history.ok then Outcome(history.tree, [], false)
      else if !IsDir(history.tree, l.legacy) then Outcome(history.tree, [], false)
      else
        var r := Steps(l, history.tree, Names(l, history.tree, listing));
        if r.ok then r.(tree := WithoutEmpty(r.tree, l.legacy)) else r
  }

  /** A target of `m` is apart from every legacy directory, and so is the place a move really uses. */
  lemma TargetsApart(l: Layout, t: Tree, n: string, m: string, target: Path)
    requires Sound(l) && (target == l.dest(m) || target == l.conflict(m))
    ensures Apart(l.legacy, target) && Apart(l.legacy, RealTarget(t, target, m))
    ensures Apart(Legacy(l, n), target) && Apart(Legacy(l, n), RealTarget(t, target, m))
  {
    assert PathsApart(l, n, m);
    ApartBelow(l.legacy, target, [m]);
    ApartBelow(l.legacy, target, [n]);
    ApartBelow(l.legacy, RealTarget(t, target, m), [n]);
  }

  lemma LegacyPathsApart(l: Layout, n: string, m: string)
    requires n != m
    ensures Apart(Legacy(l, n), Legacy(l, m))
  {
    ApartAt(Legacy(l, n), Legacy(l, m), |l.legacy|);
  }

  /** A move takes one legacy directory away and leaves the others. */
  lemma LegacyAfterMove(l: Layout, t: Tree, n: string, target: Path, m: string)
    requires Sound(l) && (target == l.dest(n) || target == l.conflict(n))
    requires Exists(t, Legacy(l, n)) && Moved(t, Legacy(l, n), target).Some?
    ensures Lookup(Moved(t, Legacy(l, n), target).value, Legacy(l, m)) == if m == n then None else Lookup(t, Legacy(l, m))
  {
    TargetsApart(l, t, n, n, target);
    TargetsApart(l, t, m, n, target);
    MovedSpec(t, Legacy(l, n), target, Legacy(l, m));
    if m != n {
      LegacyPathsApart(l, n, m);
    }
  }

  lemma {:induction false} RemoveKeepsParent(t: Tree, p: Path, name: string)
    requires IsDir(t, p)
    ensures IsDir(Remove(t, p + [name]), p)
    decreases |p|
  {
    if p != [] {
      assert (p + [name])[1..] == p[1..] + [name];
      RemoveKeepsParent(t.entries[p[0]], p[1..], name);
    }
  }

  lemma LegacyDirStays(l: Layout, t: Tree, n: string, target: Path)
    requires Sound(l) && (target == l.dest(n) || target == l.conflict(n))
    requires Exists(t, Legacy(l, n)) && Moved(t, Legacy(l, n), target).Some? && IsDir(t, l.legacy)
    ensures IsDir(Moved(t, Legacy(l, n), target).value, l.legacy)
  {
    TargetsApart(l, t, n, n, target);
    RealTargetIsClear(t, target, n);
    RemoveKeepsParent(t, l.legacy, n);
    ClearAfterRemove(t, Legacy(l, n), RealTarget(t, target, n));
    PlaceSpec(Remove(t, Legacy(l, n)), RealTarget(t, target, n), Lookup(t, Legacy(l, n)).value, l.legacy);
  }

  // The loop

  ghost predicate Distinct(names: seq<string>) {
    forall i, j :: 0 <= i < j < |names| ==> names[i] != names[j]
  }

  /** The loop has dealt with the first `i` entries of the listing. */
  ghost predicate RealTo(l: Layout, t: Tree, listing: seq<string>, now: Outcome, i: nat)
    requires i <= |listing|
  {
    var rest := Steps(l, now.tree, Names(l, t, listing[i..]));
    && Steps(l, t, Names(l, t, listing)) == rest.(report := now.report + rest.report)
    && forall k :: i <= k < |listing| ==> Lookup(now.tree, Legacy(l, listing[k])) == Lookup(t, Legacy(l, listing[k]))
  }

  lemma NextName(l: Layout, t: Tree, listing: seq<string>, i: nat)
    requires i < |listing|
    ensures Names(l, t, listing[i..])
         == if IsLegacy(l, t, listing[i]) then [listing[i]] + Names(l, t, listing[i + 1..]) else Names(l, t, listing[i + 1..])
  {
  }

  lemma SkipEntry(l: Layout, t: Tree, listing: seq<string>, now: Outcome, i: nat)
    requires i < |listing| && RealTo(l, t, listing, now, i) && !IsLegacy(l, t, listing[i])
    ensures RealTo(l, t, listing, now, i + 1)
  {
    NextName(l, t, listing, i);
  }

  lemma MoveEntry(l: Layout, t: Tree, listing: seq<string>, now: Outcome, i: nat, entry: Entry)
    requires Sound(l) && Distinct(listing)
    requires i < |listing| && RealTo(l, t, listing, now, i) && IsLegacy(l, t, listing[i])
    requires entry == EntryFor(l, listing[i], Exists(now.tree, l.dest(listing[i])))
    ensures Exists(now.tree, Legacy(l, listing[i]))
    ensures var moved := Moved(now.tree, Legacy(l, listing[i]), entry.target);
      if moved.Some? then RealTo(l, t, listing, Outcome(moved.value, now.report + [entry], true), i + 1)
      else Steps(l, t, Names(l, t, listing)) == Outcome(now.tree, now.report, false)
  {
    NextName(l, t, listing, i);
    NextStep(l, now, listing[i], Names(l, t, listing[i + 1..]));
    var moved := Moved(now.tree, Legacy(l, listing[i]), entry.target);
    if moved.Some? {
      forall k | i < k < |listing|
        ensures Lookup(moved.value, Legacy(l, listing[k])) == Lookup(t, Legacy(l, listing[k]))
      {
        LegacyAfterMove(l, now.tree, listing[i], entry.target, listing[k]);
      }
    }
  }

  lemma NextStep(l: Layout, now: Outcome, name: string, more: seq<string>)
    requires Exists(now.tree, Legacy(l, name))
    ensures var entry := EntryFor(l, name, Exists(now.tree, l.dest(name)));
      var moved := Moved(now.tree, Legacy(l, name), entry.target);
      var all := Steps(l, now.tree, [name] + more);
      if moved.Some? then
        var rest := Steps(l, moved.value, more);
        all.(report := now.report + all.report) == rest.(report := now.report + [entry] + rest.report)
      else all.(report := now.report + all.report) == Outcome(now.tree, now.report, false)
  {
  }

  ghost predicate DryTo(l: Layout, t: Tree, listing: seq<string>, report: seq<Entry>, i: nat)
    requires i <= |listing|
  {
    DryReport(l, t, Names(l, t, listing)) == report + DryReport(l, t, Names(l, t, listing[i..]))
  }

  lemma DryEntry(l: Layout, t: Tree, listing: seq<string>, report: seq<Entry>, i: nat)
    requires i < |listing| && DryTo(l, t, listing, report, i)
    ensures var entry := EntryFor(l, listing[i], Exists(t, l.dest(listing[i])));
      DryTo(l, t, listing, if IsLegacy(l, t, listing[i]) then report + [entry] else report, i + 1)
  {
    NextName(l, t, listing, i);
    if IsLegacy(l, t, listing[i]) {
      var names := Names(l, t, listing[i..]);
      assert names[1..] == Names(l, t, listing[i + 1..]);
    }
  }

  lemma HistoryStep(l: Layout, t: Tree)
    ensures var entry := EntryFor(l, HISTORY, Exists(t, l.dest(HISTORY)));
      var history := Steps(l, t, HistoryNames(l, t));
      if l.hidden && IsDir(t, Legacy(l, HISTORY)) then
        var moved := Moved(t, Legacy(l, HISTORY), entry.target);
        history.ok == moved.Some? && history.tree == (if moved.Some? then moved.value else t)
      else history == Outcome(t, [], true)
  {
  }

  class Disk {
    var tree: Tree

    constructor (tree: Tree)
      ensures this.tree == tree
    {
      this.tree := tree;
    }

    method Move(source: Path, target: Path) returns (ok: bool)
      requires source != [] && Exists(tree, source)
      modifies this
      ensures var moved := Moved(old(tree), source, target);
        ok == moved.Some? && tree == if moved.Some? then moved.value else old(tree)
    {
      var moved := Moved(tree, source, target);
      ok := moved.Some?;
      if ok {
        tree := moved.value;
      }
    }

    /** Without `ok` the migration ended in an exception; what it had moved stays moved. */
    method Migrate(l: Layout, listing: seq<string>, dryRun: bool) returns (report: seq<Entry>, ok: bool)
      requires Sound(l) && Distinct(listing)
      modifies this
      ensures !dryRun ==> Outcome(tree, report, ok) == Migrated(l, old(tree), listing)
      ensures dryRun ==> tree == old(tree)
      ensures dryRun ==> (ok <==> !Exists(tree, l.legacy) || IsDir(tree, l.legacy))
      ensures dryRun && ok ==> report == DryReport(l, tree, Names(l, tree, listing))
    {
      report, ok := [], true;
      if !Exists(tree, l.legacy) {
        NothingToMove(l, tree, listing);
        return;
      }
      HistoryStep(l, tree);
      if l.hidden && IsDir(tree, Legacy(l, HISTORY)) {
        var entry := EntryFor(l, HISTORY, Exists(tree, l.dest(HISTORY)));
        if !dryRun {
          ok := Move(Legacy(l, HISTORY), entry.target);
          if !ok {
            return;
          }
        }
      }
      if !IsDir(tree, l.legacy) {
        return [], false;
      }
      report, ok := MigrateEach(l, listing, dryRun);
      if ok && !dryRun && Lookup(tree, l.legacy) == Some(Dir(map[])) {
        tree := Remove(tree, l.legacy);
      }
    }

    method MigrateEach(l: Layout, listing: seq<string>, dryRun: bool) returns (report: seq<Entry>, ok: bool)
      requires Sound(l) && Distinct(listing)
      modifies this
      ensures !dryRun ==> Outcome(tree, report, ok) == old(Steps(l, tree, Names(l, tree, listing)))
      ensures dryRun ==> tree == old(tree) && ok && report == DryReport(l, tree, Names(l, tree, listing))
    {
      report, ok := [], true;
      ghost var start := tree;
      var i := 0;
      assert listing[0..] == listing;
      while i < |listing|
        invariant 0 <= i <= |listing|
        invariant ok
        invariant dryRun ==> tree == start && DryTo(l, start, listing, report, i)
        invariant !dryRun ==> RealTo(l, start, listing, Outcome(tree, report, true), i)
      {
        var name := listing[i];
        if dryRun {
          DryEntry(l, start, listing, report, i);
        }
        if !IsLegacy(l, tree, name) {
          if !dryRun {
            SkipEntry(l, start, listing, Outcome(tree, report, true), i);
          }
          i := i + 1;
          continue;
        }
        var entry := EntryFor(l, name, Exists(tree, l.dest(name)));
        if !dryRun {
          MoveEntry(l, start, listing, Outcome(tree, report, true), i, entry);
          ok := Move(Legacy(l, name), entry.target);
          if !ok {
            return;
          }
        }
        report := report + [entry];
        i := i + 1;
      }
    }
  }

  // Every directory ends in exactly one place

  /** The slot of the `i`th directory is taken before its turn: at the start, or by an earlier one. */
  ghost predicate Taken(l: Layout, t: Tree, names: seq<string>, i: nat)
    requires i < |names|
  {
    Exists(t, l.dest(names[i])) || exists j :: 0 <= j < i && l.dest(names[j]) == l.dest(names[i])
  }

  ghost function SlotOf(l: Layout, t: Tree, names: seq<string>, i: nat): Path
    requires i < |names|
  {
    if Taken(l, t, names, i) then l.conflict(names[i]) else l.dest(names[i])
  }

  /** Where the directory really lands: one level deeper if its slot is a directory by then. */
  ghost function LandingOf(l: Layout, t: Tree, names: seq<string>, i: nat): Path
    requires i < |names|
  {
    RealTarget(t, SlotOf(l, t, names, i), names[i])
  }

  /** The parents of the slots can be made, and nothing is where the directories will land. */
  ghost predicate Ready(l: Layout, t: Tree, names: seq<string>) {
    forall i :: 0 <= i < |names| ==> ReadyAt(l, t, names, i)
  }

  ghost predicate ReadyAt(l: Layout, t: Tree, names: seq<string>, i: nat)
    requires i < |names|
  {
    && Exists(t, Legacy(l, names[i]))
    && Clear(t, SlotOf(l, t, names, i))
    && !Exists(t, LandingOf(l, t, names, i))
  }

  lemma SlotsApart(l: Layout, t: Tree, names: seq<string>, i: nat, j: nat)
    requires Sound(l) && Distinct(names) && i < j < |names|
    ensures Apart(SlotOf(l, t, names, i), SlotOf(l, t, names, j))
  {
    assert PathsApart(l, names[i], names[j]) && PathsApart(l, names[j], names[i]) && PathsApart(l, names[i], names[i]);
  }

  lemma LandingsApart(l: Layout, t: Tree, names: seq<string>, i: nat, j: nat)
    requires Sound(l) && Distinct(names) && i < j < |names|
    ensures Apart(LandingOf(l, t, names, i), LandingOf(l, t, names, j))
    ensures Apart(LandingOf(l, t, names, i), SlotOf(l, t, names, j))
  {
    var p, q := SlotOf(l, t, names, i), SlotOf(l, t, names, j);
    SlotsApart(l, t, names, i, j);
    ApartBelow(p, q, [names[i]]);
    ApartBelow(q, LandingOf(l, t, names, i), [names[j]]);
  }

  /** Where the next directory goes, as the tree is now. */
  function TargetNow(l: Layout, t: Tree, n: string): Path {
    EntryFor(l, n, Exists(t, l.dest(n))).target
  }

  /** A move that succeeds fills the owner's slot of the directory, if it was free, and no other. */
  lemma SlotsAfterMove(l: Layout, t: Tree, n: string, m: string)
    requires Sound(l) && Exists(t, Legacy(l, n)) && Moved(t, Legacy(l, n), TargetNow(l, t, n)).Some?
    ensures Exists(Moved(t, Legacy(l, n), TargetNow(l, t, n)).value, l.dest(m))
       <==> Exists(t, l.dest(m)) || l.dest(m) == l.dest(n)
  {
    var target, dest := TargetNow(l, t, n), l.dest(m);
    var put := RealTarget(t, target, n);
    assert PathsApart(l, n, m) && PathsApart(l, m, n);
    TargetsApart(l, t, n, n, target);
    TargetsApart(l, t, n, m, dest);
    MovedSpec(t, Legacy(l, n), target, dest);
    if target == dest {
      assert put == dest && Legacy(l, n) + dest[|put|..] == Legacy(l, n);
    } else {
      ApartBelow(target, dest, [n]);
    }
  }

  lemma TakenAfterMove(l: Layout, t: Tree, names: seq<string>, i: nat)
    requires Sound(l) && 0 < i < |names|
    requires Exists(t, Legacy(l, names[0])) && Moved(t, Legacy(l, names[0]), TargetNow(l, t, names[0])).Some?
    ensures var r := Moved(t, Legacy(l, names[0]), TargetNow(l, t, names[0])).value;
      Taken(l, r, names[1..], i - 1) <==> Taken(l, t, names, i)
  {
    var r, dest, rest := Moved(t, Legacy(l, names[0]), TargetNow(l, t, names[0])).value, l.dest(names[i]), names[1..];
    SlotsAfterMove(l, t, names[0], names[i]);
    assert rest[i - 1] == names[i];
    if j :| 0 <= j < i && l.dest(names[j]) == dest {
      assert j > 0 ==> rest[j - 1] == names[j];
    }
    if j :| 0 <= j < i - 1 && l.dest(rest[j]) == dest {
      assert rest[j] == names[j + 1];
    }
  }

  /** What the tree is after the first directory has moved. */
  ghost function First(l: Layout, t: Tree, names: seq<string>): Tree
    requires names != [] && ReadyAt(l, t, names, 0)
  {
    Moved(t, Legacy(l, names[0]), SlotOf(l, t, names, 0)).value
  }

  lemma FirstSpec(l: Layout, t: Tree, names: seq<string>, q: Path)
    requires Sound(l) && names != [] && ReadyAt(l, t, names, 0)
    ensures var slot, source, r := LandingOf(l, t, names, 0), Legacy(l, names[0]), First(l, t, names);
      && (slot <= q ==> Lookup(r, q) == Lookup(t, source + q[|slot|..]))
      && (source <= q ==> Lookup(r, q) == None)
      && (Apart(slot, q) && Apart(source, q) ==> Lookup(r, q) == Lookup(t, q))
      && (!(slot <= q) && !(source <= q) ==> Content(r, q) == Content(t, q))
  {
    TargetsApart(l, t, names[0], names[0], SlotOf(l, t, names, 0));
    MovedSpec(t, Legacy(l, names[0]), SlotOf(l, t, names, 0), q);
  }

  lemma TakenAfterFirst(l: Layout, t: Tree, names: seq<string>, i: nat)
    requires Sound(l) && Distinct(names) && 0 < i < |names| && ReadyAt(l, t, names, 0)
    ensures Taken(l, First(l, t, names), names[1..], i - 1) <==> Taken(l, t, names, i)
  {
    TakenAfterMove(l, t, names, i);
  }

  lemma ReadyAfterFirstAt(l: Layout, t: Tree, names: seq<string>, i: nat)
    requires Sound(l) && Distinct(names) && 0 < i < |names| && ReadyAt(l, t, names, 0) && ReadyAt(l, t, names, i)
    ensures LandingOf(l, First(l, t, names), names[1..], i - 1) == LandingOf(l, t, names, i)
    ensures ReadyAt(l, First(l, t, names), names[1..], i - 1)
  {
    var slot, q := SlotOf(l, t, names, 0), SlotOf(l, t, names, i);
    SameLanding(l, t, names, i);
    LandingsApart(l, t, names, 0, i);
    TargetsApart(l, t, names[0], names[i], q);
    FirstSpec(l, t, names, LandingOf(l, t, names, i));
    ClearAfterMove(t, Legacy(l, names[0]), slot, q);
    LegacyAfterMove(l, t, names[0], slot, names[i]);
  }

  lemma SameLanding(l: Layout, t: Tree, names: seq<string>, i: nat)
    requires Sound(l) && Distinct(names) && 0 < i < |names| && ReadyAt(l, t, names, 0)
    ensures SlotOf(l, First(l, t, names), names[1..], i - 1) == SlotOf(l, t, names, i)
    ensures LandingOf(l, First(l, t, names), names[1..], i - 1) == LandingOf(l, t, names, i)
  {
    var q := SlotOf(l, t, names, i);
    TakenAfterFirst(l, t, names, i);
    LandingsApart(l, t, names, 0, i);
    TargetsApart(l, t, names[0], names[i], q);
    FirstSpec(l, t, names, q);
  }

  lemma ReadyAfterFirst(l: Layout, t: Tree, names: seq<string>)
    requires Sound(l) && Distinct(names) && names != [] && Ready(l, t, names)
    ensures ReadyAt(l, t, names, 0)
    ensures var r, rest := First(l, t, names), names[1..];
      && Distinct(rest) && Ready(l, r, rest)
      && forall i :: 0 <= i < |rest| ==> LandingOf(l, r, rest, i) == LandingOf(l, t, names, i + 1)
  {
    assert ReadyAt(l, t, names, 0);
    var r, rest := First(l, t, names), names[1..];
    forall i | 0 <= i < |rest| ensures LandingOf(l, r, rest, i) == LandingOf(l, t, names, i + 1) && ReadyAt(l, r, rest, i) {
      assert ReadyAt(l, t, names, i + 1);
      ReadyAfterFirstAt(l, t, names, i + 1);
    }
  }

  /** The first step of a ready migration, and the rest of it. */
  lemma StepsFirst(l: Layout, t: Tree, names: seq<string>)
    requires Sound(l) && names != [] && ReadyAt(l, t, names, 0)
    ensures var rest := Steps(l, First(l, t, names), names[1..]);
      Steps(l, t, names) == rest.(report := [EntryFor(l, names[0], Taken(l, t, names, 0))] + rest.report)
  {
  }

  /** A ready migration runs through. */
  lemma {:induction false} ReadyEndsWell(l: Layout, t: Tree, names: seq<string>)
    requires Sound(l) && Distinct(names) && Ready(l, t, names)
    ensures Steps(l, t, names).ok
    decreases |names|
  {
    if names != [] {
      assert ReadyAt(l, t, names, 0);
      StepsFirst(l, t, names);
      ReadyAfterFirst(l, t, names);
      ReadyEndsWell(l, First(l, t, names), names[1..]);
    }
  }

  /** A path is clear exactly if no file lies on it. */
  lemma {:induction false} FileInTheWay(t: Tree, p: Path) returns (k: nat)
    requires !Clear(t, p)
    ensures k < |p| && Content(t, p[..k]).Some?
    decreases |p|
  {
    k := 0;
    if t.Dir? {
      var j := FileInTheWay(t.entries[p[0]], p[1..]);
      k := j + 1;
      assert p[..k][1..] == p[1..][..j];
    }
  }

  lemma {:induction false} FileBlocks(t: Tree, p: Path, k: nat)
    requires k < |p| && Content(t, p[..k]).Some?
    ensures !Clear(t, p)
    decreases |p|
  {
    if k > 0 {
      assert p[..k][1..] == p[1..][..k - 1];
      FileBlocks(t.entries[p[0]], p[1..], k - 1);
    }
  }

  /** A move clears no way for another directory. */
  lemma ClearBeforeMove(t: Tree, source: Path, target: Path, q: Path)
    requires source != [] && Exists(t, source) && Apart(source, target) && Moved(t, source, target).Some?
    requires Apart(RealTarget(t, target, source[|source| - 1]), q) && Apart(source, q)
    requires Clear(Moved(t, source, target).value, q)
    ensures Clear(t, q)
  {
    if !Clear(t, q) {
      var k := FileInTheWay(t, q);
      assert q[..k] <= q;
      MovedSpec(t, source, target, q[..k]);
      FileBlocks(Moved(t, source, target).value, q, k);
    }
  }

  lemma ReadyBeforeFirst(l: Layout, t: Tree, names: seq<string>, i: nat)
    requires Sound(l) && Distinct(names) && 0 < i < |names| && ReadyAt(l, t, names, 0)
    requires ReadyAt(l, First(l, t, names), names[1..], i - 1)
    ensures ReadyAt(l, t, names, i)
  {
    var q := SlotOf(l, t, names, i);
    SameLanding(l, t, names, i);
    LandingsApart(l, t, names, 0, i);
    TargetsApart(l, t, names[0], names[i], q);
    TargetsApart(l, t, names[0], names[0], SlotOf(l, t, names, 0));
    FirstSpec(l, t, names, LandingOf(l, t, names, i));
    ClearBeforeMove(t, Legacy(l, names[0]), SlotOf(l, t, names, 0), q);
    LegacyAfterMove(l, t, names[0], SlotOf(l, t, names, 0), names[i]);
  }

  lemma {:induction false} EndsWellOnlyIfReady(l: Layout, t: Tree, names: seq<string>)
    requires Sound(l) && Distinct(names) && Steps(l, t, names).ok
    ensures Ready(l, t, names)
    decreases |names|
  {
    if names != [] {
      assert SlotOf(l, t, names, 0) == TargetNow(l, t, names[0]);
      assert ReadyAt(l, t, names, 0);
      EndsWellOnlyIfReady(l, First(l, t, names), names[1..]);
      forall i | 0 < i < |names| ensures ReadyAt(l, t, names, i) {
        assert ReadyAt(l, First(l, t, names), names[1..], i - 1);
        ReadyBeforeFirst(l, t, names, i);
      }
    }
  }

  /** A run that ends well reports for each directory whether its slot was taken before its turn. */
  lemma {:induction false} RunReports(l: Layout, t: Tree, names: seq<string>)
    requires Sound(l) && Steps(l, t, names).ok
    ensures var r := Steps(l, t, names);
      |r.report| == |names|
      && forall i :: 0 <= i < |names| ==> r.report[i] == EntryFor(l, names[i], Taken(l, t, names, i))
    decreases |names|
  {
    if names != [] {
      var next := Moved(t, Legacy(l, names[0]), TargetNow(l, t, names[0])).value;
      RunReports(l, next, names[1..]);
      var r := Steps(l, t, names);
      forall i | 0 < i < |names| ensures r.report[i] == EntryFor(l, names[i], Taken(l, t, names, i)) {
        TakenAfterMove(l, t, names, i);
        assert r.report[i] == Steps(l, next, names[1..]).report[i - 1];
      }
    }
  }

  /** Neither where a directory lands nor in a legacy directory that moves. */
  ghost predicate Elsewhere(l: Layout, t: Tree, names: seq<string>, q: Path) {
    forall i :: 0 <= i < |names| ==> !(LandingOf(l, t, names, i) <= q) && !(Legacy(l, names[i]) <= q)
  }

  ghost predicate FarAway(l: Layout, t: Tree, names: seq<string>, q: Path) {
    forall i :: 0 <= i < |names| ==> Apart(LandingOf(l, t, names, i), q) && Apart(Legacy(l, names[i]), q)
  }

  /** Nothing else changes: no file is overwritten, added or lost. */
  lemma {:induction false} RunElsewhere(l: Layout, t: Tree, names: seq<string>, q: Path)
    requires Sound(l) && Distinct(names) && Ready(l, t, names)
    ensures Elsewhere(l, t, names, q) ==> Content(Steps(l, t, names).tree, q) == Content(t, q)
    ensures FarAway(l, t, names, q) ==> Lookup(Steps(l, t, names).tree, q) == Lookup(t, q)
    decreases |names|
  {
    if names != [] {
      assert ReadyAt(l, t, names, 0);
      StepsFirst(l, t, names);
      ReadyAfterFirst(l, t, names);
      var r, rest := First(l, t, names), names[1..];
      FirstSpec(l, t, names, q);
      RunElsewhere(l, r, rest, q);
    }
  }

  /** The later moves leave the first directory's new and old places alone. */
  lemma RestLeavesFirst(l: Layout, t: Tree, names: seq<string>)
    requires Sound(l) && Distinct(names) && names != [] && Ready(l, t, names)
    ensures ReadyAt(l, t, names, 0)
    ensures FarAway(l, First(l, t, names), names[1..], LandingOf(l, t, names, 0))
    ensures FarAway(l, First(l, t, names), names[1..], Legacy(l, names[0]))
  {
    ReadyAfterFirst(l, t, names);
    var rest, slot := names[1..], LandingOf(l, t, names, 0);
    forall j | 0 <= j < |rest|
      ensures Apart(LandingOf(l, t, names, j + 1), slot) && Apart(Legacy(l, rest[j]), slot)
      ensures Apart(LandingOf(l, t, names, j + 1), Legacy(l, names[0])) && Apart(Legacy(l, rest[j]), Legacy(l, names[0]))
    {
      LandingsApart(l, t, names, 0, j + 1);
      TargetsApart(l, t, rest[j], names[0], SlotOf(l, t, names, 0));
      TargetsApart(l, t, names[0], rest[j], SlotOf(l, t, names, j + 1));
      LegacyPathsApart(l, names[0], rest[j]);
    }
  }

  lemma FirstStands(l: Layout, t: Tree, names: seq<string>)
    requires Sound(l) && Distinct(names) && Ready(l, t, names) && names != []
    ensures var r := Steps(l, t, names).tree;
      && Lookup(r, LandingOf(l, t, names, 0)) == Lookup(t, Legacy(l, names[0]))
      && !Exists(r, Legacy(l, names[0]))
  {
    ReadyAfterFirst(l, t, names);
    StepsFirst(l, t, names);
    var r, rest := First(l, t, names), names[1..];
    var slot, source := LandingOf(l, t, names, 0), Legacy(l, names[0]);
    FirstSpec(l, t, names, slot);
    FirstSpec(l, t, names, source);
    assert source + slot[|slot|..] == source;
    RestLeavesFirst(l, t, names);
    RunElsewhere(l, r, rest, slot);
    RunElsewhere(l, r, rest, source);
  }

  /** Each directory stands, whole, where it landed and nowhere else. */
  lemma {:induction false} RunPlaces(l: Layout, t: Tree, names: seq<string>, i: nat)
    requires Sound(l) && Distinct(names) && Ready(l, t, names) && i < |names|
    ensures var r := Steps(l, t, names).tree;
      && Lookup(r, LandingOf(l, t, names, i)) == Lookup(t, Legacy(l, names[i]))
      && !Exists(r, Legacy(l, names[i]))
    decreases |names|
  {
    if i == 0 {
      FirstStands(l, t, names);
    } else {
      ReadyAfterFirst(l, t, names);
      StepsFirst(l, t, names);
      TargetsApart(l, t, names[0], names[0], SlotOf(l, t, names, 0));
      LegacyAfterMove(l, t, names[0], SlotOf(l, t, names, 0), names[i]);
      RunPlaces(l, First(l, t, names), names[1..], i - 1);
    }
  }

  // The whole migration

  /** All that moves: the history first, then the listed directories. */
  function ToMove(l: Layout, t: Tree, listing: seq<string>): seq<string> {
    HistoryNames(l, t) + Names(l, t, listing)
  }

  lemma {:induction false} NamesSpec(l: Layout, t: Tree, listing: seq<string>)
    ensures forall n :: n in Names(l, t, listing) <==> n in listing && IsLegacy(l, t, n)
    ensures Distinct(listing) ==> Distinct(Names(l, t, listing))
  {
    if listing != [] {
      NamesSpec(l, t, listing[1..]);
      assert forall n :: n in listing <==> n == listing[0] || n in listing[1..];
      if Distinct(listing) {
        assert listing[0] !in listing[1..];
        var names, rest := Names(l, t, listing), Names(l, t, listing[1..]);
        if IsLegacy(l, t, listing[0]) {
          assert forall i :: 0 < i < |names| ==> names[i] == rest[i - 1];
        } else {
          assert names == rest;
        }
      }
    }
  }

  lemma ToMoveIsDistinct(l: Layout, t: Tree, listing: seq<string>)
    requires Distinct(listing)
    ensures Distinct(ToMove(l, t, listing))
  {
    NamesSpec(l, t, listing);
    var names := Names(l, t, listing);
    forall i | l.hidden && 0 <= i < |names| ensures names[i] != HISTORY {
      assert names[i] in names;
      assert IsLegacy(l, t, names[i]);
    }
  }

  lemma {:induction false} StepsAppend(l: Layout, t: Tree, a: seq<string>, b: seq<string>)
    ensures var x, all := Steps(l, t, a), Steps(l, t, a + b);
      if x.ok then
        var y := Steps(l, x.tree, b);
        |x.report| == |a| && all == y.(report := x.report + y.report)
      else all == x
    decreases |a|
  {
    if a == [] {
      assert a + b == b;
      var y := Steps(l, t, b);
      assert [] + y.report == y.report;
    } else {
      assert (a + b)[1..] == a[1..] + b;
      var entry := EntryFor(l, a[0], Exists(t, l.dest(a[0])));
      if Exists(t, Legacy(l, a[0])) && Moved(t, Legacy(l, a[0]), entry.target).Some? {
        var next := Moved(t, Legacy(l, a[0]), entry.target).value;
        StepsAppend(l, next, a[1..], b);
        var x := Steps(l, next, a[1..]);
        if x.ok {
          var y := Steps(l, x.tree, b);
          assert [entry] + (x.report + y.report) == [entry] + x.report + y.report;
        }
      }
    }
  }

  /** What a run that ends well does to the legacy directories. */
  lemma {:induction false} StepsLegacy(l: Layout, t: Tree, names: seq<string>, m: string)
    requires Sound(l) && Steps(l, t, names).ok
    ensures Lookup(Steps(l, t, names).tree, Legacy(l, m)) == if m in names then None else Lookup(t, Legacy(l, m))
    ensures IsDir(t, l.legacy) ==> IsDir(Steps(l, t, names).tree, l.legacy)
    decreases |names|
  {
    if names != [] {
      var target := EntryFor(l, names[0], Exists(t, l.dest(names[0]))).target;
      LegacyAfterMove(l, t, names[0], target, m);
      if IsDir(t, l.legacy) {
        LegacyDirStays(l, t, names[0], target);
      }
      StepsLegacy(l, Moved(t, Legacy(l, names[0]), target).value, names[1..], m);
    }
  }

  lemma {:induction false} SameNames(l: Layout, t: Tree, u: Tree, listing: seq<string>)
    requires forall n :: IsLegacy(l, t, n) <==> IsLegacy(l, u, n)
    ensures Names(l, t, listing) == Names(l, u, listing)
  {
    if listing != [] {
      SameNames(l, t, u, listing[1..]);
    }
  }

  lemma MigratedIsSteps(l: Layout, t: Tree, listing: seq<string>)
    requires Sound(l) && IsDir(t, l.legacy)
    ensures var all, r := Steps(l, t, ToMove(l, t, listing)), Migrated(l, t, listing);
      && r.ok == all.ok
      && r.tree == (if all.ok then WithoutEmpty(all.tree, l.legacy) else all.tree)
      && (all.ok ==> |all.report| >= |HistoryNames(l, t)| && r.report == all.report[|HistoryNames(l, t)|..])
  {
    var before := HistoryNames(l, t);
    var history := Steps(l, t, before);
    StepsAppend(l, t, before, Names(l, t, listing));
    if history.ok {
      StepsLegacy(l, t, before, HISTORY);
      forall n ensures IsLegacy(l, t, n) <==> IsLegacy(l, history.tree, n) {
        StepsLegacy(l, t, before, n);
      }
      SameNames(l, t, history.tree, listing);
      assert IsDir(history.tree, l.legacy);
    } else {
      HistoryStep(l, t);
    }
  }

  lemma WithoutEmptySpec(t: Tree, p: Path, q: Path)
    requires p != []
    ensures Content(WithoutEmpty(t, p), q) == Content(t, q)
    ensures Apart(p, q) ==> Lookup(WithoutEmpty(t, p), q) == Lookup(t, q)
    ensures p < q && !Exists(t, q) ==> !Exists(WithoutEmpty(t, p), q)
  {
    RemoveSpec(t, p, q);
    if p <= q && Lookup(t, p) == Some(Dir(map[])) {
      assert q == p + q[|p|..];
      LookupJoin(t, p, q[|p|..]);
    }
  }

  /**
    A migration runs through exactly if, for every directory to move, its slot as told from the
    tree at the start (the owner's if nothing is or comes there before, else the conflict slot)
    has no file in its way and nothing is where the directory would land.
   */
  lemma EndsWellExactlyIfReady(l: Layout, t: Tree, listing: seq<string>)
    requires Sound(l) && IsDir(t, l.legacy) && Distinct(listing)
    ensures Migrated(l, t, listing).ok <==> Ready(l, t, ToMove(l, t, listing))
  {
    var names := ToMove(l, t, listing);
    ToMoveIsDistinct(l, t, listing);
    MigratedIsSteps(l, t, listing);
    if Ready(l, t, names) {
      ReadyEndsWell(l, t, names);
    }
    if Steps(l, t, names).ok {
      EndsWellOnlyIfReady(l, t, names);
    }
  }

  /**
    After a run that ends well every legacy directory stands whole where it landed: in the
    owner's slot if that was free at its turn, else in the conflict slot, or below that slot if
    it was occupied.
   */
  lemma MigrationPlaces(l: Layout, t: Tree, listing: seq<string>, i: nat)
    requires Sound(l) && l.legacy != [] && IsDir(t, l.legacy) && Distinct(listing)
    requires Migrated(l, t, listing).ok && i < |ToMove(l, t, listing)|
    ensures var names, r := ToMove(l, t, listing), Migrated(l, t, listing).tree;
      && Lookup(r, LandingOf(l, t, names, i)) == Lookup(t, Legacy(l, names[i]))
      && !Exists(r, Legacy(l, names[i]))
  {
    var names := ToMove(l, t, listing);
    EndsWellExactlyIfReady(l, t, listing);
    ToMoveIsDistinct(l, t, listing);
    MigratedIsSteps(l, t, listing);
    RunPlaces(l, t, names, i);
    var r := Steps(l, t, names).tree;
    TargetsApart(l, t, names[i], names[i], SlotOf(l, t, names, i));
    WithoutEmptySpec(r, l.legacy, LandingOf(l, t, names, i));
    WithoutEmptySpec(r, l.legacy, Legacy(l, names[i]));
  }

  /** Every other file is where it was, and no other file is new. */
  lemma MigrationTouchesNothingElse(l: Layout, t: Tree, listing: seq<string>, q: Path)
    requires Sound(l) && l.legacy != [] && IsDir(t, l.legacy) && Distinct(listing)
    requires Migrated(l, t, listing).ok && Elsewhere(l, t, ToMove(l, t, listing), q)
    ensures Content(Migrated(l, t, listing).tree, q) == Content(t, q)
  {
    var names := ToMove(l, t, listing);
    EndsWellExactlyIfReady(l, t, listing);
    ToMoveIsDistinct(l, t, listing);
    MigratedIsSteps(l, t, listing);
    RunElsewhere(l, t, names, q);
    WithoutEmptySpec(Steps(l, t, names).tree, l.legacy, q);
  }

  /** No legacy directory is left that would move, nor an empty one to hold them. */
  ghost predicate Emptied(l: Layout, t: Tree) {
    !Exists(t, l.legacy) ||
    (IsDir(t, l.legacy) && Lookup(t, l.legacy) != Some(Dir(map[])) && HistoryNames(l, t) == [] && forall n :: !IsLegacy(l, t, n))
  }

  /** The listings hold every name. */
  ghost predicate Complete(l: Layout, t: Tree, listing: seq<string>) {
    forall n :: Exists(t, Legacy(l, n)) ==> n in listing
  }

  lemma GoodRunEmpties(l: Layout, t: Tree, listing: seq<string>)
    requires Sound(l) && l.legacy != [] && Complete(l, t, listing) && Migrated(l, t, listing).ok
    ensures Emptied(l, Migrated(l, t, listing).tree)
  {
    if IsDir(t, l.legacy) {
      var names := ToMove(l, t, listing);
      MigratedIsSteps(l, t, listing);
      var all, r := Steps(l, t, names).tree, Migrated(l, t, listing).tree;
      StepsLegacy(l, t, names, HISTORY);
      RemoveSpec(all, l.legacy, l.legacy);
      if Exists(r, l.legacy) {
        assert r == all;
        NamesSpec(l, t, listing);
        forall n ensures !IsLegacy(l, r, n) {
          StepsLegacy(l, t, names, n);
        }
        assert HistoryNames(l, r) == [];
      }
    } else {
      NothingToMove(l, t, listing);
      assert !Exists(t, l.legacy);
    }
  }

  lemma NothingLeftToDo(l: Layout, t: Tree, again: seq<string>)
    requires Emptied(l, t)
    ensures Migrated(l, t, again) == Outcome(t, [], true)
  {
    if Exists(t, l.legacy) {
      NoNames(l, t, again);
    }
  }

  /** A second run finds nothing to do, whatever it is given as listing. */
  lemma SecondRunChangesNothing(l: Layout, t: Tree, listing: seq<string>, again: seq<string>)
    requires Sound(l) && l.legacy != [] && Complete(l, t, listing) && Migrated(l, t, listing).ok
    ensures var r := Migrated(l, t, listing).tree; Migrated(l, r, again) == Outcome(r, [], true)
  {
    GoodRunEmpties(l, t, listing);
    NothingLeftToDo(l, Migrated(l, t, listing).tree, again);
  }

  lemma {:induction false} NoNames(l: Layout, t: Tree, listing: seq<string>)
    requires forall n :: !IsLegacy(l, t, n)
    ensures Names(l, t, listing) == []
  {
    if listing != [] {
      NoNames(l, t, listing[1..]);
    }
  }

  lemma {:induction false} DryReportAt(l: Layout, t: Tree, names: seq<string>)
    ensures |DryReport(l, t, names)| == |names|
    ensures forall i :: 0 <= i < |names| ==> DryReport(l, t, names)[i] == EntryFor(l, names[i], Exists(t, l.dest(names[i])))
  {
    if names != [] {
      DryReportAt(l, t, names[1..]);
    }
  }

  /** The slot is free at the start, but an earlier directory wants it too. */
  ghost predicate Contended(l: Layout, t: Tree, names: seq<string>, i: nat)
    requires i < |names|
  {
    !Exists(t, l.dest(names[i])) && exists j :: 0 <= j < i && l.dest(names[j]) == l.dest(names[i])
  }

  /** The real report is that of the steps after the history's. */
  lemma ReportAt(l: Layout, t: Tree, listing: seq<string>, i: nat)
    requires Sound(l) && IsDir(t, l.legacy) && Migrated(l, t, listing).ok
    ensures var names, h := ToMove(l, t, listing), |HistoryNames(l, t)|;
      && |Migrated(l, t, listing).report| == |names| - h
      && (i < |names| - h ==>
            Migrated(l, t, listing).report[i] == EntryFor(l, names[i + h], Taken(l, t, names, i + h)))
  {
    MigratedIsSteps(l, t, listing);
    RunReports(l, t, ToMove(l, t, listing));
  }

  lemma PredictedAt(l: Layout, t: Tree, listing: seq<string>, i: nat)
    requires Sound(l) && IsDir(t, l.legacy) && Migrated(l, t, listing).ok
    ensures var names, h := ToMove(l, t, listing), |HistoryNames(l, t)|;
      var dry, report := DryReport(l, t, Names(l, t, listing)), Migrated(l, t, listing).report;
      && |dry| == |report| == |names| - h
      && (i < |dry| ==> (dry[i] == report[i] <==> !Contended(l, t, names, i + h)))
  {
    var names, h := ToMove(l, t, listing), |HistoryNames(l, t)|;
    ReportAt(l, t, listing, i);
    DryReportAt(l, t, Names(l, t, listing));
    if i < |names| - h {
      assert names[i + h] == Names(l, t, listing)[i];
    }
  }

  /**
    If the real run ends well, a dry run reports exactly its actions if and only if no two of the
    directories want the same slot while it is still free, whatever lies in the conflict slots.
   */
  lemma DryRunPredictsExactlyIf(l: Layout, t: Tree, listing: seq<string>)
    requires Sound(l) && Migrated(l, t, listing).ok
    ensures var names, h := ToMove(l, t, listing), |HistoryNames(l, t)|;
      DryReport(l, t, Names(l, t, listing)) == Migrated(l, t, listing).report
      <==> forall i :: h <= i < |names| ==> !Contended(l, t, names, i)
  {
    var names, h := ToMove(l, t, listing), |HistoryNames(l, t)|;
    if !IsDir(t, l.legacy) {
      NothingToMove(l, t, listing);
    } else {
      PredictedAt(l, t, listing, 0);
      forall i | h <= i < |names| ensures var dry, report := DryReport(l, t, Names(l, t, listing)), Migrated(l, t, listing).report;
        dry[i - h] == report[i - h] <==> !Contended(l, t, names, i)
      {
        PredictedAt(l, t, listing, i - h);
      }
      SameReports(l, t, names, h, DryReport(l, t, Names(l, t, listing)), Migrated(l, t, listing).report);
    }
  }

  lemma SameReports(l: Layout, t: Tree, names: seq<string>, h: nat, dry: seq<Entry>, report: seq<Entry>)
    requires h <= |names| && |dry| == |report| == |names| - h
    requires forall i :: h <= i < |names| ==> (dry[i - h] == report[i - h] <==> !Contended(l, t, names, i))
    ensures dry == report <==> forall i :: h <= i < |names| ==> !Contended(l, t, names, i)
  {
    if dry != report {
      var k :| 0 <= k < |dry| && dry[k] != report[k];
      assert Contended(l, t, names, k + h);
    }
  }

  /** For threads and skills the prediction is exact for every run that ends well. */
  lemma ThreadsAndSkillsArePredicted(owner: string -> string, user: string, t: Tree, listing: seq<string>)
    requires Distinct(listing)
    ensures var l := ThreadLayout(owner);
      Migrated(l, t, listing).ok ==> DryReport(l, t, Names(l, t, listing)) == Migrated(l, t, listing).report
    ensures var l := SkillLayout(user);
      Migrated(l, t, listing).ok ==> DryReport(l, t, Names(l, t, listing)) == Migrated(l, t, listing).report
  {
    LayoutsAreSound(owner, user, n => n);
    OwnSlotsArePredicted(ThreadLayout(owner), t, listing) by {
      forall n, m | n != m ensures ThreadLayout(owner).dest(n) != ThreadLayout(owner).dest(m) {
        ThreadPathsApart(owner, n, m);
      }
    }
    OwnSlotsArePredicted(SkillLayout(user), t, listing) by {
      forall n, m | n != m ensures SkillLayout(user).dest(n) != SkillLayout(user).dest(m) {
        SkillPathsApart(user, n, m);
      }
    }
  }

  lemma OwnSlotsArePredicted(l: Layout, t: Tree, listing: seq<string>)
    requires Sound(l) && Distinct(listing)
    requires forall n, m :: n != m ==> l.dest(n) != l.dest(m)
    ensures Migrated(l, t, listing).ok ==> DryReport(l, t, Names(l, t, listing)) == Migrated(l, t, listing).report
  {
    ToMoveIsDistinct(l, t, listing);
    if Migrated(l, t, listing).ok {
      DryRunPredictsExactlyIf(l, t, listing);
    }
  }

  lemma ContendedPair(l: Layout, t: Tree, a: string, b: string)
    requires Sound(l) && IsDir(t, l.legacy) && !l.hidden && a != b
    requires IsLegacy(l, t, a) && IsLegacy(l, t, b) && l.dest(a) == l.dest(b)
    requires !Exists(t, l.dest(a)) && Clear(t, l.dest(a)) && !Exists(t, l.conflict(b)) && Clear(t, l.conflict(b))
    ensures DryReport(l, t, Names(l, t, [a, b])) == [Entry(a, false, l.dest(a)), Entry(b, false, l.dest(a))]
    ensures Migrated(l, t, [a, b]).report == [Entry(a, false, l.dest(a)), Entry(b, true, l.conflict(b))]
  {
    var names := [a, b];
    assert names[1..] == [b] && [b][1..] == [];
    assert Names(l, t, [b]) == [b] + Names(l, t, []);
    assert Names(l, t, names) == [a] + Names(l, t, [b]);
    assert ToMove(l, t, names) == names;
    assert l.dest(names[0]) == l.dest(names[1]);
    assert Taken(l, t, names, 1) && !Taken(l, t, names, 0);
    assert ReadyAt(l, t, names, 0) && ReadyAt(l, t, names, 1);
    ReadyEndsWell(l, t, names);
    RunReports(l, t, names);
    MigratedIsSteps(l, t, names);
    DryReportAt(l, t, names);
  }

  lemma TwoAgents(a: string, b: string, p: Path)
    requires a != b
    ensures var t := Dir(map["agents" := Dir(map[a := Dir(map[]), b := Dir(map[])])]);
      && IsDir(t, ["agents"]) && IsDir(t, ["agents", a]) && IsDir(t, ["agents", b])
      && (p != [] && p[0] != "agents" ==> !Exists(t, p) && Clear(t, p))
  {
    var agents := Dir(map[a := Dir(map[]), b := Dir(map[])]);
    var t := Dir(map["agents" := agents]);
    assert ["agents"][1..] == [] && [a][1..] == [] && [b][1..] == [];
    assert Lookup(t, ["agents"]) == Some(agents);
    assert Lookup(agents, [a]) == Some(Dir(map[])) && Lookup(agents, [b]) == Some(Dir(map[]));
    LookupJoin(t, ["agents"], [a]);
    LookupJoin(t, ["agents"], [b]);
    assert ["agents"] + [a] == ["agents", a] && ["agents"] + [b] == ["agents", b];
  }

  /** Two agents whose names differ in case only: the dry run promises both the same place. */
  lemma CaseVariantsBreakDryRun(user: string, lower: string -> string, a: string, b: string)
    requires a != b && lower(a) == lower(b)
    ensures var l := AgentLayout(user, lower);
      var t := Dir(map["agents" := Dir(map[a := Dir(map[]), b := Dir(map[])])]);
      && DryReport(l, t, Names(l, t, [a, b])) == [Entry(a, false, l.dest(a)), Entry(b, false, l.dest(a))]
      && Migrated(l, t, [a, b]).report == [Entry(a, false, l.dest(a)), Entry(b, true, l.conflict(b))]
  {
    var l := AgentLayout(user, lower);
    var t := Dir(map["agents" := Dir(map[a := Dir(map[]), b := Dir(map[])])]);
    TwoAgents(a, b, l.dest(a));
    TwoAgents(a, b, l.conflict(b));
    LayoutsAreSound(n => user, user, lower);
    ContendedPair(l, t, a, b);
  }

  // An occupied conflict slot

  /** With the owner's slot taken, a directory ends in the reported conflict slot exactly if that is free. */
  lemma ConflictSlotHoldsItExactlyIfFree(l: Layout, t: Tree, n: string)
    requires Sound(l) && Exists(t, Legacy(l, n)) && Exists(t, l.dest(n)) && Clear(t, l.conflict(n))
    ensures var r := Steps(l, t, [n]);
      (r.ok && Lookup(r.tree, l.conflict(n)) == Lookup(t, Legacy(l, n))) <==> !Exists(t, l.conflict(n))
    ensures var r := Steps(l, t, [n]);
      IsDir(t, l.conflict(n)) && !Exists(t, l.conflict(n) + [n]) ==>
        r.ok && Lookup(r.tree, l.conflict(n) + [n]) == Lookup(t, Legacy(l, n)) && r.report == [Entry(n, true, l.conflict(n))]
  {
    var source, target := Legacy(l, n), l.conflict(n);
    assert [n][1..] == [];
    var moved := Moved(t, source, target);
    if moved.Some? {
      TargetsApart(l, t, n, n, target);
      var place := RealTarget(t, target, n);
      MovedSpec(t, source, target, place);
      assert source + place[|place|..] == source;
      if IsDir(t, target) {
        assert Exists(moved.value, target + [n]);
        BelowExists(moved.value, target, n);
        LookupJoin(moved.value, target, [n]);
        NotInItself(Lookup(t, source).value, n);
      }
    }
  }

  lemma {:induction false} BelowExists(t: Tree, p: Path, n: string)
    requires Exists(t, p + [n])
    ensures Exists(t, p)
  {
    if !Exists(t, p) {
      NothingBelow(t, p, p + [n]);
    }
  }

  /** A directory is none of its own entries. */
  lemma NotInItself(t: Tree, n: string)
    ensures Lookup(t, [n]) != Some(t)
  {
  }

  // Nothing is lost in any run

  /** Where one move takes the file at `q`. */
  function MovedPath(l: Layout, t: Tree, n: string, target: Path, q: Path): Path {
    var source := Legacy(l, n);
    if source <= q then RealTarget(t, target, n) + q[|source|..] else q
  }

  /** Where a run takes the file at `q`, as far as it gets. */
  function Trace(l: Layout, t: Tree, names: seq<string>, q: Path): Path
    decreases |names|
  {
    if names == [] || !Exists(t, Legacy(l, names[0])) then q
    else
      var target := EntryFor(l, names[0], Exists(t, l.dest(names[0]))).target;
      var moved := Moved(t, Legacy(l, names[0]), target);
      if moved.None? then q else Trace(l, moved.value, names[1..], MovedPath(l, t, names[0], target, q))
  }

  ghost predicate CanMove(l: Layout, t: Tree, n: string, target: Path) {
    && Sound(l) && (target == l.dest(n) || target == l.conflict(n))
    && Exists(t, Legacy(l, n)) && Moved(t, Legacy(l, n), target).Some?
  }

  lemma FileMoves(l: Layout, t: Tree, n: string, target: Path, q: Path)
    requires CanMove(l, t, n, target) && Content(t, q).Some?
    ensures Content(Moved(t, Legacy(l, n), target).value, MovedPath(l, t, n, target, q)) == Content(t, q)
    ensures !(RealTarget(t, target, n) <= q)
  {
    var source, place, p := Legacy(l, n), RealTarget(t, target, n), MovedPath(l, t, n, target, q);
    TargetsApart(l, t, n, n, target);
    NothingBelow(t, place, q);
    MovedSpec(t, source, target, p);
    if source <= q {
      assert p[|place|..] == q[|source|..] && source + q[|source|..] == q;
    }
  }

  lemma MovesApart(l: Layout, t: Tree, n: string, target: Path, q: Path, r: Path)
    requires CanMove(l, t, n, target) && Content(t, q).Some? && Content(t, r).Some? && q != r
    ensures MovedPath(l, t, n, target, q) != MovedPath(l, t, n, target, r)
  {
    var source, place := Legacy(l, n), RealTarget(t, target, n);
    FileMoves(l, t, n, target, q);
    FileMoves(l, t, n, target, r);
    if source <= q && source <= r {
      assert source + q[|source|..] == q && source + r[|source|..] == r;
      assert (place + q[|source|..])[|place|..] == q[|source|..];
      assert (place + r[|source|..])[|place|..] == r[|source|..];
    } else if source <= q {
      assert place <= MovedPath(l, t, n, target, q);
    } else if source <= r {
      assert place <= MovedPath(l, t, n, target, r);
    }
  }

  lemma FileWasThere(l: Layout, t: Tree, n: string, target: Path, p: Path) returns (q: Path)
    requires CanMove(l, t, n, target) && Content(Moved(t, Legacy(l, n), target).value, p).Some?
    ensures Content(t, q).Some? && MovedPath(l, t, n, target, q) == p
  {
    var source, place := Legacy(l, n), RealTarget(t, target, n);
    TargetsApart(l, t, n, n, target);
    MovedSpec(t, source, target, p);
    if place <= p {
      q := source + p[|place|..];
      assert q[|source|..] == p[|place|..] && place + p[|place|..] == p;
    } else {
      q := p;
    }
  }

  lemma {:induction false} TraceKeeps(l: Layout, t: Tree, names: seq<string>, q: Path)
    requires Sound(l) && Content(t, q).Some?
    ensures Content(Steps(l, t, names).tree, Trace(l, t, names, q)) == Content(t, q)
    decreases |names|
  {
    if names != [] && Exists(t, Legacy(l, names[0])) {
      var target := EntryFor(l, names[0], Exists(t, l.dest(names[0]))).target;
      var moved := Moved(t, Legacy(l, names[0]), target);
      if moved.Some? {
        FileMoves(l, t, names[0], target, q);
        TraceKeeps(l, moved.value, names[1..], MovedPath(l, t, names[0], target, q));
      }
    }
  }

  lemma {:induction false} TraceSeparates(l: Layout, t: Tree, names: seq<string>, q: Path, r: Path)
    requires Sound(l) && Content(t, q).Some? && Content(t, r).Some? && q != r
    ensures Trace(l, t, names, q) != Trace(l, t, names, r)
    decreases |names|
  {
    if names != [] && Exists(t, Legacy(l, names[0])) {
      var target := EntryFor(l, names[0], Exists(t, l.dest(names[0]))).target;
      var moved := Moved(t, Legacy(l, names[0]), target);
      if moved.Some? {
        FileMoves(l, t, names[0], target, q);
        FileMoves(l, t, names[0], target, r);
        MovesApart(l, t, names[0], target, q, r);
        TraceSeparates(l, moved.value, names[1..],
          MovedPath(l, t, names[0], target, q), MovedPath(l, t, names[0], target, r));
      }
    }
  }

  lemma {:induction false} TraceReaches(l: Layout, t: Tree, names: seq<string>, p: Path) returns (q: Path)
    requires Sound(l) && Content(Steps(l, t, names).tree, p).Some?
    ensures Content(t, q).Some? && Trace(l, t, names, q) == p
    decreases |names|
  {
    q := p;
    if names != [] && Exists(t, Legacy(l, names[0])) {
      var target := EntryFor(l, names[0], Exists(t, l.dest(names[0]))).target;
      var moved := Moved(t, Legacy(l, names[0]), target);
      if moved.Some? {
        var between := TraceReaches(l, moved.value, names[1..], p);
        q := FileWasThere(l, t, names[0], target, between);
      }
    }
  }

  lemma {:induction false} NothingToMove(l: Layout, t: Tree, listing: seq<string>)
    requires !IsDir(t, l.legacy)
    ensures Names(l, t, listing) == [] && HistoryNames(l, t) == [] && Migrated(l, t, listing).tree == t
  {
    forall n ensures !Exists(t, Legacy(l, n)) {
      if Exists(t, l.legacy) {
        LookupJoin(t, l.legacy, [n]);
      } else {
        NothingBelow(t, l.legacy, Legacy(l, n));
      }
    }
    NoNames(l, t, listing);
  }

  /** The tree after a migration, well ended or not, holds the files of its steps. */
  lemma MigratedFiles(l: Layout, t: Tree, listing: seq<string>, p: Path)
    requires Sound(l) && l.legacy != []
    ensures Content(Migrated(l, t, listing).tree, p) == Content(Steps(l, t, ToMove(l, t, listing)).tree, p)
  {
    if IsDir(t, l.legacy) {
      MigratedIsSteps(l, t, listing);
      WithoutEmptySpec(Steps(l, t, ToMove(l, t, listing)).tree, l.legacy, p);
    } else {
      NothingToMove(l, t, listing);
      assert ToMove(l, t, listing) == [];
    }
  }

  /**
    Whatever is in the way, and even if the run ends in an exception: the files before and after
    correspond one to one, each with its content.
   */
  lemma NothingIsLost(l: Layout, t: Tree, listing: seq<string>)
    requires Sound(l) && l.legacy != []
    ensures var r, names := Migrated(l, t, listing).tree, ToMove(l, t, listing);
      && (forall q :: Content(t, q).Some? ==> Content(r, Trace(l, t, names, q)) == Content(t, q))
      && (forall q, q' :: Content(t, q).Some? && Content(t, q').Some? && q != q' ==>
            Trace(l, t, names, q) != Trace(l, t, names, q'))
      && (forall p :: Content(r, p).Some? ==> exists q :: Content(t, q).Some? && Trace(l, t, names, q) == p)
  {
    var r, names := Migrated(l, t, listing).tree, ToMove(l, t, listing);
    forall q | Content(t, q).Some? ensures Content(r, Trace(l, t, names, q)) == Content(t, q) {
      TraceKeeps(l, t, names, q);
      MigratedFiles(l, t, listing, Trace(l, t, names, q));
    }
    forall q, q' | Content(t, q).Some? && Content(t, q').Some? && q != q'
      ensures Trace(l, t, names, q) != Trace(l, t, names, q')
    {
      TraceSeparates(l, t, names, q, q');
    }
    forall p | Content(r, p).Some? ensures exists q :: Content(t, q).Some? && Trace(l, t, names, q) == p {
      MigratedFiles(l, t, listing, p);
      var q := TraceReaches(l, t, names, p);
    }
  }
}
