/**
  The whole of scripts/migrate_user_isolation.py: threads, the memory file, agents and skills,
  one after the other on the same tree.
 */
module MigrationScript {
  import opened Wrappers
  import opened Migration

  const MEMORY: Path := ["memory.json"]
  const BACKUP: Path := ["memory.legacy.json"]

  /** The arguments, and what the three listings yield when their turn comes. */
  datatype Script = Script(
    owner: string -> string,
    user: string,
    lower: string -> string,
    threads: seq<string>,
    agents: seq<string>,
    skills: seq<string>)

  function Threads(c: Script): Layout {
    ThreadLayout(c.owner)
  }

  function Agents(c: Script): Layout {
    AgentLayout(c.user, c.lower)
  }

  function Skills(c: Script): Layout {
    SkillLayout(c.user)
  }

  function MemorySlot(c: Script): Path {
    ["users", c.user, "memory.json"]
  }

  /** `Path.rename` puts the memory over an earlier backup if that is a file too. */
  function Renamed(t: Tree): Option<Tree>
    requires Exists(t, MEMORY)
  {
    var from, to := Lookup(t, MEMORY).value, Lookup(t, BACKUP);
    if to.Some? && !(if from.File? then to.value.File? else to.value == Dir(map[])) then None
    else Some(Place(Remove(t, MEMORY), BACKUP, from))
  }

  /** `migrate_memory`; `None` is an exception. */
  function MemoryMoved(c: Script, t: Tree): Option<Tree> {
    if !Exists(t, MEMORY) then Some(t)
    else if Exists(t, MemorySlot(c)) then Renamed(t)
    else Moved(t, MEMORY, MemorySlot(c))
  }

  /** The tree, the reports of the parts that ended, and whether all did. */
  datatype Result = Result(tree: Tree, reports: seq<seq<Entry>>, ok: bool)

  function WithSkills(c: Script, t: Tree, reports: seq<seq<Entry>>): Result {
    var r := Migrated(Skills(c), t, c.skills);
    Result(r.tree, if r.ok then reports + [r.report] else reports, r.ok)
  }

  function WithAgents(c: Script, t: Tree, reports: seq<seq<Entry>>): Result {
    var r := Migrated(Agents(c), t, c.agents);
    if r.ok then WithSkills(c, r.tree, reports + [r.report]) else Result(r.tree, reports, false)
  }

  function Run(c: Script, t: Tree): Result {
    var r := Migrated(Threads(c), t, c.threads);
    if !r.ok then Result(r.tree, [], false)
    else
      var moved := MemoryMoved(c, r.tree);
      if moved.None? then Result(r.tree, [r.report], false)
      else WithAgents(c, moved.value, [r.report])
  }

  /** A dry run looks at the tree as it is. */
  function DryRun(c: Script, t: Tree): seq<seq<Entry>> {
    [DryReport(Threads(c), t, Names(Threads(c), t, c.threads)),
     DryReport(Agents(c), t, Names(Agents(c), t, c.agents)),
     DryReport(Skills(c), t, Names(Skills(c), t, c.skills))]
  }

  /** `migrate_memory` on the disk. */
  method MigrateMemory(disk: Disk, c: Script, dryRun: bool) returns (ok: bool)
    modifies disk
    ensures dryRun ==> ok && disk.tree == old(disk.tree)
    ensures !dryRun ==> var moved := MemoryMoved(c, old(disk.tree));
      ok == moved.Some? && disk.tree == if moved.Some? then moved.value else old(disk.tree)
  {
    ok := true;
    if !Exists(disk.tree, MEMORY) || dryRun {
      return;
    }
    if Exists(disk.tree, MemorySlot(c)) {
      var renamed := Renamed(disk.tree);
      ok := renamed.Some?;
      if ok {
        disk.tree := renamed.value;
      }
      return;
    }
    ok := disk.Move(MEMORY, MemorySlot(c));
  }

  /** `main`, without the memory's log lines; a part that raises ends it. */
  method RunScript(disk: Disk, c: Script, dryRun: bool) returns (reports: seq<seq<Entry>>, ok: bool)
    requires Distinct(c.threads) && Distinct(c.agents) && Distinct(c.skills)
    modifies disk
    ensures !dryRun ==> Result(disk.tree, reports, ok) == Run(c, old(disk.tree))
    ensures dryRun ==> disk.tree == old(disk.tree)
    ensures dryRun && ok ==> reports == DryRun(c, disk.tree)
  {
    Layouts(c);
    reports := [];
    var report;
    report, ok := disk.Migrate(Threads(c), c.threads, dryRun);
    if !ok {
      return;
    }
    reports := [report];
    ok := MigrateMemory(disk, c, dryRun);
    if !ok {
      return;
    }
    report, ok := disk.Migrate(Agents(c), c.agents, dryRun);
    if !ok {
      return;
    }
    reports := reports + [report];
    report, ok := disk.Migrate(Skills(c), c.skills, dryRun);
    if ok {
      reports := reports + [report];
    }
  }

  // The trees between the parts of a run that ends well

  function TreeA(c: Script, t: Tree): Tree {
    Migrated(Threads(c), t, c.threads).tree
  }

  function TreeB(c: Script, t: Tree): Tree {
    var moved := MemoryMoved(c, TreeA(c, t));
    if moved.Some? then moved.value else TreeA(c, t)
  }

  function TreeC(c: Script, t: Tree): Tree {
    Migrated(Agents(c), TreeB(c, t), c.agents).tree
  }

  lemma RunParts(c: Script, t: Tree)
    requires Run(c, t).ok
    ensures Migrated(Threads(c), t, c.threads).ok && MemoryMoved(c, TreeA(c, t)).Some?
    ensures Migrated(Agents(c), TreeB(c, t), c.agents).ok && Migrated(Skills(c), TreeC(c, t), c.skills).ok
    ensures Run(c, t).tree == Migrated(Skills(c), TreeC(c, t), c.skills).tree
    ensures Run(c, t).reports ==
      [Migrated(Threads(c), t, c.threads).report, Migrated(Agents(c), TreeB(c, t), c.agents).report,
       Migrated(Skills(c), TreeC(c, t), c.skills).report]
  {
  }

  lemma Layouts(c: Script)
    ensures Sound(Threads(c)) && Sound(Agents(c)) && Sound(Skills(c))
  {
    LayoutsAreSound(c.owner, c.user, c.lower);
  }

  // What one part leaves to the others

  /** No slot and no legacy directory of the layout lies above or below the path. */
  ghost predicate Leaves(l: Layout, q: Path) {
    Apart(l.legacy, q) && forall n :: Apart(l.dest(n), q) && Apart(l.conflict(n), q)
  }

  lemma MoveLeaves(l: Layout, t: Tree, n: string, q: Path)
    requires Sound(l) && Leaves(l, q) && Exists(t, Legacy(l, n)) && Moved(t, Legacy(l, n), TargetNow(l, t, n)).Some?
    ensures Lookup(Moved(t, Legacy(l, n), TargetNow(l, t, n)).value, q) == Lookup(t, q)
  {
    var target := TargetNow(l, t, n);
    TargetsApart(l, t, n, n, target);
    ApartBelow(target, q, [n]);
    ApartBelow(l.legacy, q, [n]);
    MovedSpec(t, Legacy(l, n), target, q);
  }

  lemma {:induction false} StepsLeave(l: Layout, t: Tree, names: seq<string>, q: Path)
    requires Sound(l) && Leaves(l, q)
    ensures Lookup(Steps(l, t, names).tree, q) == Lookup(t, q)
    decreases |names|
  {
    if names != [] && Exists(t, Legacy(l, names[0])) && Moved(t, Legacy(l, names[0]), TargetNow(l, t, names[0])).Some? {
      MoveLeaves(l, t, names[0], q);
      StepsLeave(l, Moved(t, Legacy(l, names[0]), TargetNow(l, t, names[0])).value, names[1..], q);
    }
  }

  lemma MigratedLeaves(l: Layout, t: Tree, listing: seq<string>, q: Path)
    requires Sound(l) && l.legacy != [] && Leaves(l, q)
    ensures Lookup(Migrated(l, t, listing).tree, q) == Lookup(t, q)
  {
    if IsDir(t, l.legacy) {
      MigratedIsSteps(l, t, listing);
      StepsLeave(l, t, ToMove(l, t, listing), q);
      WithoutEmptySpec(Steps(l, t, ToMove(l, t, listing)).tree, l.legacy, q);
    } else {
      NothingToMove(l, t, listing);
    }
  }

  lemma ThreadsLeave(c: Script, q: Path)
    requires q != [] && q[0] != "threads" && q[0] != "migration-conflicts"
    requires q[0] != "users" || (|q| > 2 && q[2] != "threads")
    ensures Leaves(Threads(c), q)
  {
    var l := Threads(c);
    forall n ensures Apart(l.dest(n), q) && Apart(l.conflict(n), q) {
      assert l.dest(n)[0] == "users" && l.dest(n)[2] == "threads" && l.conflict(n)[0] == "migration-conflicts";
      ApartAt(l.conflict(n), q, 0);
      ApartAt(l.dest(n), q, if q[0] == "users" then 2 else 0);
    }
    ApartAt(l.legacy, q, 0);
  }

  lemma AgentsLeave(c: Script, q: Path)
    requires q != [] && q[0] != "agents" && q[0] != "migration-conflicts"
    requires q[0] != "users" || (|q| > 2 && q[2] != "agents")
    ensures Leaves(Agents(c), q)
  {
    var l := Agents(c);
    forall n ensures Apart(l.dest(n), q) && Apart(l.conflict(n), q) {
      assert l.dest(n)[0] == "users" && l.dest(n)[2] == "agents" && l.conflict(n)[0] == "migration-conflicts";
      ApartAt(l.conflict(n), q, 0);
      ApartAt(l.dest(n), q, if q[0] == "users" then 2 else 0);
    }
    ApartAt(l.legacy, q, 0);
  }

  lemma SkillsLeave(c: Script, q: Path)
    requires q != [] && q[0] != "skills" && q[0] != "migration-conflicts"
    requires q[0] != "users" || (|q| > 2 && q[2] != "skills")
    ensures Leaves(Skills(c), q)
  {
    var l := Skills(c);
    forall n ensures Apart(l.dest(n), q) && Apart(l.conflict(n), q) {
      assert l.dest(n)[0] == "users" && l.dest(n)[2] == "skills" && l.conflict(n)[0] == "migration-conflicts";
      ApartAt(l.conflict(n), q, 0);
      ApartAt(l.dest(n), q, if q[0] == "users" then 2 else 0);
    }
    ApartAt(l.legacy, q, 0);
  }

  /** Where the memory goes, if it is there. */
  function MemoryTarget(c: Script, t: Tree): Path {
    if Exists(t, MemorySlot(c)) then BACKUP else MemorySlot(c)
  }

  lemma MemorySpec(c: Script, t: Tree, q: Path)
    requires Exists(t, MEMORY) && MemoryMoved(c, t).Some?
    ensures var r, put := MemoryMoved(c, t).value, MemoryTarget(c, t);
      && (put <= q ==> Lookup(r, q) == Lookup(t, MEMORY + q[|put|..]))
      && (MEMORY <= q ==> Lookup(r, q) == None)
      && (Apart(put, q) && Apart(MEMORY, q) ==> Lookup(r, q) == Lookup(t, q))
      && (!(put <= q) && !(MEMORY <= q) ==> Content(r, q) == Content(t, q))
  {
    var put := MemoryTarget(c, t);
    ApartAt(MEMORY, put, 0);
    if Exists(t, MemorySlot(c)) {
      assert MEMORY[1..] == [] && BACKUP[1..] == [];
      assert t.Dir?;
      PlaceSpec(Remove(t, MEMORY), BACKUP, Lookup(t, MEMORY).value, q);
      RemoveSpec(t, MEMORY, q);
      if BACKUP <= q {
        LookupJoin(t, MEMORY, q[1..]);
      }
      if MEMORY <= q {
        ApartAt(BACKUP, q, 0);
      }
    } else {
      assert RealTarget(t, put, "memory.json") == put;
      MovedSpec(t, MEMORY, put, q);
    }
  }

  lemma MemoryLeaves(c: Script, t: Tree, q: Path)
    requires Apart(MEMORY, q) && Apart(BACKUP, q) && Apart(MemorySlot(c), q) && MemoryMoved(c, t).Some?
    ensures Lookup(MemoryMoved(c, t).value, q) == Lookup(t, q)
  {
    if Exists(t, MEMORY) {
      MemorySpec(c, t, q);
    }
  }

  /** What the agents' part looks at is as it was at the start. */
  lemma AgentsSeeTheStart(c: Script, t: Tree, q: Path)
    requires Run(c, t).ok
    requires q != [] && (q[0] == "agents" || (q[0] == "users" && |q| > 2 && q[2] == "agents"))
    ensures Lookup(TreeB(c, t), q) == Lookup(t, q)
  {
    RunParts(c, t);
    Layouts(c);
    ThreadsLeave(c, q);
    MigratedLeaves(Threads(c), t, c.threads, q);
    ApartAt(MEMORY, q, 0);
    ApartAt(BACKUP, q, 0);
    ApartAt(MemorySlot(c), q, if q[0] == "users" then 2 else 0);
    MemoryLeaves(c, TreeA(c, t), q);
  }

  lemma SkillsSeeTheStart(c: Script, t: Tree, q: Path)
    requires Run(c, t).ok
    requires q != [] && (q[0] == "skills" || (q[0] == "users" && |q| > 2 && q[2] == "skills"))
    ensures Lookup(TreeC(c, t), q) == Lookup(t, q)
  {
    RunParts(c, t);
    Layouts(c);
    ThreadsLeave(c, q);
    MigratedLeaves(Threads(c), t, c.threads, q);
    ApartAt(MEMORY, q, 0);
    ApartAt(BACKUP, q, 0);
    ApartAt(MemorySlot(c), q, if q[0] == "users" then 2 else 0);
    MemoryLeaves(c, TreeA(c, t), q);
    AgentsLeave(c, q);
    MigratedLeaves(Agents(c), TreeB(c, t), c.agents, q);
  }

  // The dry run

  /** Two trees that agree on the legacy directories and the owners' slots get the same plan. */
  lemma SamePlan(l: Layout, t: Tree, u: Tree, listing: seq<string>)
    requires forall n :: Lookup(t, Legacy(l, n)) == Lookup(u, Legacy(l, n)) && Lookup(t, l.dest(n)) == Lookup(u, l.dest(n))
    ensures Names(l, t, listing) == Names(l, u, listing) && HistoryNames(l, t) == HistoryNames(l, u)
    ensures DryReport(l, t, Names(l, t, listing)) == DryReport(l, u, Names(l, u, listing))
    ensures forall names, i: nat :: i < |names| ==> (Contended(l, t, names, i) <==> Contended(l, u, names, i))
  {
    forall n ensures IsLegacy(l, t, n) <==> IsLegacy(l, u, n) {
      assert Lookup(t, Legacy(l, n)) == Lookup(u, Legacy(l, n));
    }
    SameNames(l, t, u, listing);
    assert Lookup(t, Legacy(l, HISTORY)) == Lookup(u, Legacy(l, HISTORY));
    var names := Names(l, t, listing);
    DryReportAt(l, t, names);
    DryReportAt(l, u, names);
    forall i | 0 <= i < |names| ensures DryReport(l, t, names)[i] == DryReport(l, u, names)[i] {
      assert Lookup(t, l.dest(names[i])) == Lookup(u, l.dest(names[i]));
    }
    forall ns: seq<string>, i: nat | i < |ns| ensures Contended(l, t, ns, i) <==> Contended(l, u, ns, i) {
      assert Lookup(t, l.dest(ns[i])) == Lookup(u, l.dest(ns[i]));
    }
  }

  lemma AgentsPlan(c: Script, t: Tree)
    requires Run(c, t).ok
    ensures forall n :: Lookup(t, Legacy(Agents(c), n)) == Lookup(TreeB(c, t), Legacy(Agents(c), n))
                     && Lookup(t, Agents(c).dest(n)) == Lookup(TreeB(c, t), Agents(c).dest(n))
  {
    forall n ensures Lookup(t, Legacy(Agents(c), n)) == Lookup(TreeB(c, t), Legacy(Agents(c), n))
                  && Lookup(t, Agents(c).dest(n)) == Lookup(TreeB(c, t), Agents(c).dest(n))
    {
      AgentsSeeTheStart(c, t, Legacy(Agents(c), n));
      AgentsSeeTheStart(c, t, Agents(c).dest(n));
    }
  }

  lemma SkillsPlan(c: Script, t: Tree)
    requires Run(c, t).ok
    ensures forall n :: Lookup(t, Legacy(Skills(c), n)) == Lookup(TreeC(c, t), Legacy(Skills(c), n))
                     && Lookup(t, Skills(c).dest(n)) == Lookup(TreeC(c, t), Skills(c).dest(n))
  {
    forall n ensures Lookup(t, Legacy(Skills(c), n)) == Lookup(TreeC(c, t), Legacy(Skills(c), n))
                  && Lookup(t, Skills(c).dest(n)) == Lookup(TreeC(c, t), Skills(c).dest(n))
    {
      SkillsSeeTheStart(c, t, Legacy(Skills(c), n));
      SkillsSeeTheStart(c, t, Skills(c).dest(n));
    }
  }

  lemma AgentsArePredictedExactlyIf(c: Script, t: Tree)
    requires Run(c, t).ok
    ensures var names := Names(Agents(c), t, c.agents);
      DryReport(Agents(c), t, names) == Migrated(Agents(c), TreeB(c, t), c.agents).report
      <==> forall i :: 0 <= i < |names| ==> !Contended(Agents(c), t, names, i)
  {
    Layouts(c);
    RunParts(c, t);
    AgentsPlan(c, t);
    var l, u := Agents(c), TreeB(c, t);
    SamePlan(l, t, u, c.agents);
    DryRunPredictsExactlyIf(l, u, c.agents);
    NoHistory(l, u, c.agents);
  }

  lemma NoHistory(l: Layout, t: Tree, listing: seq<string>)
    requires !l.hidden
    ensures HistoryNames(l, t) == [] && ToMove(l, t, listing) == Names(l, t, listing)
  {
    assert [] + Names(l, t, listing) == Names(l, t, listing);
  }

  lemma SkillsArePredicted(c: Script, t: Tree)
    requires Run(c, t).ok && Distinct(c.skills)
    ensures DryReport(Skills(c), t, Names(Skills(c), t, c.skills)) == Migrated(Skills(c), TreeC(c, t), c.skills).report
  {
    RunParts(c, t);
    ThreadsAndSkillsArePredicted(c.owner, c.user, TreeC(c, t), c.skills);
    SkillsPlan(c, t);
    SamePlan(Skills(c), t, TreeC(c, t), c.skills);
  }

  /**
    If the script ends well, its dry run has reported all that it does, part by part, if and
    only if no two agents want one slot that is free at the start.
   */
  lemma ScriptIsPredictedExactlyIf(c: Script, t: Tree)
    requires Run(c, t).ok && Distinct(c.threads) && Distinct(c.agents) && Distinct(c.skills)
    ensures var names := Names(Agents(c), t, c.agents);
      DryRun(c, t) == Run(c, t).reports <==> forall i :: 0 <= i < |names| ==> !Contended(Agents(c), t, names, i)
  {
    RunParts(c, t);
    ThreadsAndSkillsArePredicted(c.owner, c.user, t, c.threads);
    SkillsArePredicted(c, t);
    AgentsArePredictedExactlyIf(c, t);
    var dry, reports := DryRun(c, t), Run(c, t).reports;
    assert dry[0] == reports[0] && dry[2] == reports[2];
    assert dry == reports <==> dry[1] == reports[1];
  }

  // The second run

  lemma RootLookup(t: Tree, u: Tree, p: Path, q: Path)
    requires Lookup(t, p) == Lookup(u, p) && p <= q
    ensures Lookup(t, q) == Lookup(u, q)
  {
    assert q == p + q[|p|..];
    if Exists(t, p) {
      LookupJoin(t, p, q[|p|..]);
      LookupJoin(u, p, q[|p|..]);
    } else {
      NothingBelow(t, p, q);
      NothingBelow(u, p, q);
    }
  }

  lemma StaysEmptied(l: Layout, t: Tree, u: Tree)
    requires Emptied(l, t) && Lookup(t, l.legacy) == Lookup(u, l.legacy)
    ensures Emptied(l, u)
  {
    forall n ensures Lookup(u, Legacy(l, n)) == Lookup(t, Legacy(l, n)) {
      RootLookup(t, u, l.legacy, Legacy(l, n));
    }
    if Exists(t, l.legacy) {
      forall n ensures !IsLegacy(l, u, n) {
        assert !IsLegacy(l, t, n) && Lookup(u, Legacy(l, n)) == Lookup(t, Legacy(l, n));
      }
      assert Lookup(u, Legacy(l, HISTORY)) == Lookup(t, Legacy(l, HISTORY));
    }
  }

  /** The three listings hold every name there is. */
  ghost predicate AllListed(c: Script, t: Tree) {
    Complete(Threads(c), t, c.threads) && Complete(Agents(c), t, c.agents) && Complete(Skills(c), t, c.skills)
  }

  /** After a script that ended well nothing is left that a later run would touch. */
  lemma ScriptEmpties(c: Script, t: Tree)
    requires Run(c, t).ok && AllListed(c, t)
    ensures var r := Run(c, t).tree;
      Emptied(Threads(c), r) && !Exists(r, MEMORY) && Emptied(Agents(c), r) && Emptied(Skills(c), r)
  {
    Layouts(c);
    RunParts(c, t);
    ThreadsEmptied(c, t);
    MemoryIsGone(c, t);
    AgentsEmptied(c, t);
    SkillsPlan(c, t);
    GoodRunEmpties(Skills(c), TreeC(c, t), c.skills);
  }

  lemma LaterPartsLeave(c: Script, t: Tree, q: Path)
    requires Run(c, t).ok && q != [] && (q[0] == "threads" || q[0] == "memory.json")
    ensures Lookup(Run(c, t).tree, q) == Lookup(TreeB(c, t), q)
  {
    Layouts(c);
    RunParts(c, t);
    AgentsLeave(c, q);
    SkillsLeave(c, q);
    MigratedLeaves(Agents(c), TreeB(c, t), c.agents, q);
    MigratedLeaves(Skills(c), TreeC(c, t), c.skills, q);
  }

  lemma ThreadsEmptied(c: Script, t: Tree)
    requires Run(c, t).ok && Complete(Threads(c), t, c.threads)
    ensures Emptied(Threads(c), Run(c, t).tree)
  {
    Layouts(c);
    RunParts(c, t);
    GoodRunEmpties(Threads(c), t, c.threads);
    var q := Threads(c).legacy;
    ApartAt(MEMORY, q, 0);
    ApartAt(BACKUP, q, 0);
    ApartAt(MemorySlot(c), q, 0);
    MemoryLeaves(c, TreeA(c, t), q);
    LaterPartsLeave(c, t, q);
    StaysEmptied(Threads(c), TreeA(c, t), Run(c, t).tree);
  }

  lemma MemoryIsGone(c: Script, t: Tree)
    requires Run(c, t).ok
    ensures !Exists(Run(c, t).tree, MEMORY)
  {
    RunParts(c, t);
    LaterPartsLeave(c, t, MEMORY);
    if Exists(TreeA(c, t), MEMORY) {
      MemorySpec(c, TreeA(c, t), MEMORY);
    }
  }

  lemma AgentsEmptied(c: Script, t: Tree)
    requires Run(c, t).ok && Complete(Agents(c), t, c.agents)
    ensures Emptied(Agents(c), Run(c, t).tree)
  {
    Layouts(c);
    RunParts(c, t);
    AgentsPlan(c, t);
    GoodRunEmpties(Agents(c), TreeB(c, t), c.agents);
    SkillsLeave(c, Agents(c).legacy);
    MigratedLeaves(Skills(c), TreeC(c, t), c.skills, Agents(c).legacy);
    StaysEmptied(Agents(c), TreeC(c, t), Run(c, t).tree);
  }

  /** The script is idempotent: after a run that ended well a second one, given any listings, is a no-op. */
  lemma SecondScriptChangesNothing(c: Script, t: Tree, again: Script)
    requires Run(c, t).ok && AllListed(c, t)
    requires again.owner == c.owner && again.user == c.user && again.lower == c.lower
    ensures Run(again, Run(c, t).tree) == Result(Run(c, t).tree, [[], [], []], true)
  {
    var r := Run(c, t).tree;
    ScriptEmpties(c, t);
    NothingLeftToDo(Threads(c), r, again.threads);
    NothingLeftToDo(Agents(c), r, again.agents);
    NothingLeftToDo(Skills(c), r, again.skills);
  }

  // Conservation

  /** A file of `t` that is not among those that get lost. */
  predicate Stays(t: Tree, q: Path, gone: set<Path>) {
    Content(t, q).Some? && q !in gone
  }

  ghost predicate Keeps(t: Tree, r: Tree, f: Path -> Path, gone: set<Path>) {
    forall q :: Stays(t, q, gone) ==> Content(r, f(q)) == Content(t, q)
  }

  ghost predicate Separates(t: Tree, f: Path -> Path, gone: set<Path>) {
    forall q, q' :: Stays(t, q, gone) && Stays(t, q', gone) && q != q' ==> f(q) != f(q')
  }

  ghost predicate Reaches(t: Tree, r: Tree, f: Path -> Path, gone: set<Path>) {
    forall p :: Content(r, p).Some? ==> exists q :: Stays(t, q, gone) && f(q) == p
  }

  /** Every file of `t` but those at `gone` is in `r` at `f` of its path, one by one, and `r` has no others. */
  ghost predicate Carries(t: Tree, r: Tree, f: Path -> Path, gone: set<Path>) {
    Keeps(t, r, f, gone) && Separates(t, f, gone) && Reaches(t, r, f, gone)
  }

  function Then(f: Path -> Path, g: Path -> Path): Path -> Path {
    q => g(f(q))
  }

  /** `gone` is what the first part loses, and what the second loses of the rest. */
  ghost predicate LostTogether(t: Tree, f: Path -> Path, lostF: set<Path>, lostG: set<Path>, gone: set<Path>) {
    forall q :: Content(t, q).Some? ==> (q in gone <==> q in lostF || f(q) in lostG)
  }

  lemma StaysOn(t: Tree, u: Tree, f: Path -> Path, lostF: set<Path>, lostG: set<Path>, gone: set<Path>, q: Path)
    requires LostTogether(t, f, lostF, lostG, gone) && Stays(t, q, gone) && Keeps(t, u, f, lostF)
    ensures Stays(t, q, lostF) && Stays(u, f(q), lostG)
  {
  }

  lemma KeepsOn(t: Tree, u: Tree, r: Tree, f: Path -> Path, lostF: set<Path>, g: Path -> Path, lostG: set<Path>, gone: set<Path>)
    requires Keeps(t, u, f, lostF) && Keeps(u, r, g, lostG) && LostTogether(t, f, lostF, lostG, gone)
    ensures Keeps(t, r, Then(f, g), gone)
  {
    forall q | Stays(t, q, gone) ensures Content(r, Then(f, g)(q)) == Content(t, q) {
      StaysOn(t, u, f, lostF, lostG, gone, q);
    }
  }

  lemma SeparatesOn(t: Tree, u: Tree, f: Path -> Path, lostF: set<Path>, g: Path -> Path, lostG: set<Path>, gone: set<Path>)
    requires Keeps(t, u, f, lostF) && Separates(t, f, lostF) && Separates(u, g, lostG) && LostTogether(t, f, lostF, lostG, gone)
    ensures Separates(t, Then(f, g), gone)
  {
    forall q, q' | Stays(t, q, gone) && Stays(t, q', gone) && q != q' ensures Then(f, g)(q) != Then(f, g)(q') {
      StaysOn(t, u, f, lostF, lostG, gone, q);
      StaysOn(t, u, f, lostF, lostG, gone, q');
      assert f(q) != f(q');
    }
  }

  /** One part after another. */
  lemma CarriesOn(t: Tree, u: Tree, r: Tree, f: Path -> Path, lostF: set<Path>, g: Path -> Path, lostG: set<Path>, gone: set<Path>)
    requires Carries(t, u, f, lostF) && Carries(u, r, g, lostG) && LostTogether(t, f, lostF, lostG, gone)
    ensures Carries(t, r, Then(f, g), gone)
  {
    KeepsOn(t, u, r, f, lostF, g, lostG, gone);
    SeparatesOn(t, u, f, lostF, g, lostG, gone);
    ReachesOn(t, u, r, f, lostF, g, lostG, gone);
  }

  lemma ReachesOn(t: Tree, u: Tree, r: Tree, f: Path -> Path, lostF: set<Path>, g: Path -> Path, lostG: set<Path>, gone: set<Path>)
    requires Reaches(t, u, f, lostF) && Reaches(u, r, g, lostG) && LostTogether(t, f, lostF, lostG, gone)
    ensures Reaches(t, r, Then(f, g), gone)
  {
    forall p | Content(r, p).Some? ensures exists q :: Stays(t, q, gone) && Then(f, g)(q) == p {
      var m :| Stays(u, m, lostG) && g(m) == p;
      var q :| Stays(t, q, lostF) && f(q) == m;
      assert Stays(t, q, gone) && Then(f, g)(q) == p;
    }
  }

  function PartTrace(l: Layout, t: Tree, listing: seq<string>): Path -> Path {
    q => Trace(l, t, ToMove(l, t, listing), q)
  }

  lemma PartCarries(l: Layout, t: Tree, listing: seq<string>)
    requires Sound(l) && l.legacy != []
    ensures Carries(t, Migrated(l, t, listing).tree, PartTrace(l, t, listing), {})
  {
    NothingIsLost(l, t, listing);
    var f := PartTrace(l, t, listing);
    assert forall q :: f(q) == Trace(l, t, ToMove(l, t, listing), q);
    forall p | Content(Migrated(l, t, listing).tree, p).Some? ensures exists q :: Stays(t, q, {}) && f(q) == p {
      var q :| Content(t, q).Some? && Trace(l, t, ToMove(l, t, listing), q) == p;
      assert Stays(t, q, {}) && f(q) == p;
    }
  }

  function MemoryTrace(c: Script, t: Tree): Path -> Path {
    q => if Exists(t, MEMORY) && MEMORY <= q then MemoryTarget(c, t) + q[1..] else q
  }

  /** The memory file is renamed over the backup of an earlier run. */
  predicate Overwrites(c: Script, t: Tree) {
    Content(t, MEMORY).Some? && Exists(t, MemorySlot(c)) && Content(t, BACKUP).Some?
  }

  function Gone(c: Script, t: Tree): set<Path> {
    if Overwrites(c, t) then {BACKUP} else {}
  }

  /** No file was where the memory goes, but for the backup. */
  lemma MemoryGoesToAFreePlace(c: Script, t: Tree, q: Path)
    requires Exists(t, MEMORY) && MemoryMoved(c, t).Some? && MemoryTarget(c, t) <= q && Content(t, q).Some?
    ensures Overwrites(c, t) && q == BACKUP
  {
    var put := MemoryTarget(c, t);
    NothingBelow(t, put, q);
    assert BACKUP <= q;
    assert q == BACKUP + q[1..];
    LookupJoin(t, BACKUP, q[1..]);
    assert Lookup(t, q) == Lookup(Lookup(t, BACKUP).value, q[1..]);
  }

  lemma MemoryKeeps(c: Script, t: Tree, q: Path)
    requires Exists(t, MEMORY) && MemoryMoved(c, t).Some? && Stays(t, q, Gone(c, t))
    ensures Content(MemoryMoved(c, t).value, MemoryTrace(c, t)(q)) == Content(t, q)
    ensures MEMORY <= q <==> MemoryTarget(c, t) <= MemoryTrace(c, t)(q)
  {
    var put, p := MemoryTarget(c, t), MemoryTrace(c, t)(q);
    if put <= q {
      MemoryGoesToAFreePlace(c, t, q);
    }
    MemorySpec(c, t, p);
    if MEMORY <= q {
      assert p[|put|..] == q[1..] && MEMORY + q[1..] == q;
    }
  }

  lemma MemoryWasThere(c: Script, t: Tree, p: Path) returns (q: Path)
    requires Exists(t, MEMORY) && MemoryMoved(c, t).Some? && Content(MemoryMoved(c, t).value, p).Some?
    ensures Stays(t, q, Gone(c, t)) && MemoryTrace(c, t)(q) == p
  {
    var put := MemoryTarget(c, t);
    MemorySpec(c, t, p);
    if put <= p {
      q := MEMORY + p[|put|..];
      assert q[1..] == p[|put|..] && put + p[|put|..] == p;
      ApartAt(q, BACKUP, 0);
    } else {
      q := p;
    }
  }

  lemma MemoryCarries(c: Script, t: Tree)
    requires MemoryMoved(c, t).Some?
    ensures Carries(t, MemoryMoved(c, t).value, MemoryTrace(c, t), Gone(c, t))
  {
    var r, f := MemoryMoved(c, t).value, MemoryTrace(c, t);
    if Exists(t, MEMORY) {
      var put := MemoryTarget(c, t);
      forall q | Stays(t, q, Gone(c, t)) ensures Content(r, f(q)) == Content(t, q) {
        MemoryKeeps(c, t, q);
      }
      forall q, q' | Stays(t, q, Gone(c, t)) && Stays(t, q', Gone(c, t)) && q != q'
        ensures f(q) != f(q')
      {
        MemoryKeeps(c, t, q);
        MemoryKeeps(c, t, q');
        if MEMORY <= q && MEMORY <= q' {
          assert MEMORY + q[1..] == q && MEMORY + q'[1..] == q';
          assert (put + q[1..])[|put|..] == q[1..] && (put + q'[1..])[|put|..] == q'[1..];
        }
      }
      forall p | Content(r, p).Some? ensures exists q :: Stays(t, q, Gone(c, t)) && f(q) == p {
        var q := MemoryWasThere(c, t, p);
        assert Stays(t, q, Gone(c, t));
      }
    } else {
      forall p | Content(r, p).Some? ensures exists q :: Stays(t, q, Gone(c, t)) && f(q) == p {
        assert Stays(t, p, Gone(c, t)) && f(p) == p;
      }
    }
  }

  /** Whether the script renames the memory over an earlier backup, as told from the start. */
  predicate LosesBackup(c: Script, t: Tree) {
    Overwrites(c, t) && Migrated(Threads(c), t, c.threads).ok
  }

  function ScriptGone(c: Script, t: Tree): set<Path> {
    if LosesBackup(c, t) then {BACKUP} else {}
  }

  /** Where the script takes the file at `q`, as far as it gets. */
  function ScriptTrace(c: Script, t: Tree): Path -> Path {
    var threads := Migrated(Threads(c), t, c.threads);
    var f := PartTrace(Threads(c), t, c.threads);
    if !threads.ok || MemoryMoved(c, threads.tree).None? then f
    else
      var u := MemoryMoved(c, threads.tree).value;
      var agents := Migrated(Agents(c), u, c.agents);
      var g := Then(Then(f, MemoryTrace(c, threads.tree)), PartTrace(Agents(c), u, c.agents));
      if !agents.ok then g else Then(g, PartTrace(Skills(c), agents.tree, c.skills))
  }

  /** The threads' part leaves the memory files alone. */
  lemma MemoryUntouched(c: Script, t: Tree)
    ensures Overwrites(c, TreeA(c, t)) <==> Overwrites(c, t)
    ensures forall q :: Content(t, q).Some? ==> (PartTrace(Threads(c), t, c.threads)(q) == BACKUP <==> q == BACKUP)
  {
    var l, f, u := Threads(c), PartTrace(Threads(c), t, c.threads), TreeA(c, t);
    Layouts(c);
    ThreadsLeave(c, MEMORY);
    ThreadsLeave(c, BACKUP);
    ThreadsLeave(c, MemorySlot(c));
    MigratedLeaves(l, t, c.threads, MEMORY);
    MigratedLeaves(l, t, c.threads, BACKUP);
    MigratedLeaves(l, t, c.threads, MemorySlot(c));
    PartCarries(l, t, c.threads);
    TraceLeaves(l, t, ToMove(l, t, c.threads), BACKUP);
    forall q | Content(t, q).Some? ensures f(q) == BACKUP <==> q == BACKUP {
      assert f(BACKUP) == BACKUP;
      if f(q) == BACKUP && q != BACKUP {
        assert Stays(t, q, {}) && Content(u, BACKUP) == Content(t, q);
        assert Stays(t, BACKUP, {});
      }
    }
  }

  lemma {:induction false} TraceLeaves(l: Layout, t: Tree, names: seq<string>, q: Path)
    requires Apart(l.legacy, q)
    ensures Trace(l, t, names, q) == q
    decreases |names|
  {
    if names != [] && Exists(t, Legacy(l, names[0])) {
      var moved := Moved(t, Legacy(l, names[0]), TargetNow(l, t, names[0]));
      ApartBelow(l.legacy, q, [names[0]]);
      if moved.Some? {
        TraceLeaves(l, moved.value, names[1..], q);
      }
    }
  }

  lemma MemoryGone(c: Script, t: Tree)
    requires Migrated(Threads(c), t, c.threads).ok
    ensures ScriptGone(c, t) == Gone(c, TreeA(c, t))
    ensures forall q :: Content(t, q).Some? ==>
      (q in ScriptGone(c, t) <==> PartTrace(Threads(c), t, c.threads)(q) in Gone(c, TreeA(c, t)))
  {
    MemoryUntouched(c, t);
  }

  lemma FirstPartsCarry(c: Script, t: Tree)
    requires Migrated(Threads(c), t, c.threads).ok && MemoryMoved(c, TreeA(c, t)).Some?
    ensures Carries(t, TreeB(c, t), Then(PartTrace(Threads(c), t, c.threads), MemoryTrace(c, TreeA(c, t))), ScriptGone(c, t))
  {
    var f, u, gone := PartTrace(Threads(c), t, c.threads), TreeA(c, t), ScriptGone(c, t);
    assert Carries(t, u, f, {}) by {
      Layouts(c);
      PartCarries(Threads(c), t, c.threads);
    }
    assert Carries(u, TreeB(c, t), MemoryTrace(c, u), Gone(c, u)) by {
      MemoryCarries(c, u);
    }
    MemoryGone(c, t);
    CarriesOn(t, u, TreeB(c, t), f, {}, MemoryTrace(c, u), Gone(c, u), gone);
  }

  lemma LastPartCarries(l: Layout, t: Tree, u: Tree, f: Path -> Path, gone: set<Path>, listing: seq<string>)
    requires Sound(l) && l.legacy != [] && Carries(t, u, f, gone)
    ensures Carries(t, Migrated(l, u, listing).tree, Then(f, PartTrace(l, u, listing)), gone)
  {
    PartCarries(l, u, listing);
    CarriesOn(t, u, Migrated(l, u, listing).tree, f, gone, PartTrace(l, u, listing), {}, gone);
  }

  lemma StoppedEarly(c: Script, t: Tree)
    requires !Migrated(Threads(c), t, c.threads).ok || MemoryMoved(c, TreeA(c, t)).None?
    ensures Run(c, t).tree == TreeA(c, t) && ScriptTrace(c, t) == PartTrace(Threads(c), t, c.threads)
    ensures ScriptGone(c, t) == {}
  {
    if Migrated(Threads(c), t, c.threads).ok {
      MemoryGone(c, t);
    }
  }

  /**
    The whole script, even if it ends in an exception: every file but one is in its new place with
    its content, one by one, and there are no others. The one that can get lost is the backup
    that an earlier run made of a memory file, and it is lost exactly if the memory is renamed
    over it.
   */
  lemma OnlyABackupIsLost(c: Script, t: Tree)
    ensures Carries(t, Run(c, t).tree, ScriptTrace(c, t), ScriptGone(c, t))
  {
    if !Migrated(Threads(c), t, c.threads).ok || MemoryMoved(c, TreeA(c, t)).None? {
      StoppedEarly(c, t);
      Layouts(c);
      PartCarries(Threads(c), t, c.threads);
    } else {
      FirstPartsCarry(c, t);
      AllPartsCarry(c, t);
    }
  }

  lemma AllPartsCarry(c: Script, t: Tree)
    requires Migrated(Threads(c), t, c.threads).ok && MemoryMoved(c, TreeA(c, t)).Some?
    requires Carries(t, TreeB(c, t), Then(PartTrace(Threads(c), t, c.threads), MemoryTrace(c, TreeA(c, t))), ScriptGone(c, t))
    ensures Carries(t, Run(c, t).tree, ScriptTrace(c, t), ScriptGone(c, t))
  {
    Layouts(c);
    var f, u := Then(PartTrace(Threads(c), t, c.threads), MemoryTrace(c, TreeA(c, t))), TreeB(c, t);
    LastPartCarries(Agents(c), t, u, f, ScriptGone(c, t), c.agents);
    if Migrated(Agents(c), u, c.agents).ok {
      LastPartCarries(Skills(c), t, TreeC(c, t), Then(f, PartTrace(Agents(c), u, c.agents)), ScriptGone(c, t), c.skills);
    }
  }

  // Threads that share a conflict directory with agents or skills

  lemma {:induction false} StepsKeepExisting(l: Layout, t: Tree, names: seq<string>, q: Path)
    requires Sound(l) && Exists(t, q) && Apart(l.legacy, q)
    ensures Exists(Steps(l, t, names).tree, q)
    decreases |names|
  {
    if names != [] && Exists(t, Legacy(l, names[0])) && Moved(t, Legacy(l, names[0]), TargetNow(l, t, names[0])).Some? {
      MoveKeepsExisting(l, t, names[0], q);
      StepsKeepExisting(l, Moved(t, Legacy(l, names[0]), TargetNow(l, t, names[0])).value, names[1..], q);
    }
  }

  lemma MoveKeepsExisting(l: Layout, t: Tree, n: string, q: Path)
    requires Sound(l) && Exists(t, q) && Apart(l.legacy, q)
    requires Exists(t, Legacy(l, n)) && Moved(t, Legacy(l, n), TargetNow(l, t, n)).Some?
    ensures Exists(Moved(t, Legacy(l, n), TargetNow(l, t, n)).value, q)
  {
    var target := TargetNow(l, t, n);
    var put, r := RealTarget(t, target, n), Moved(t, Legacy(l, n), target).value;
    TargetsApart(l, t, n, n, target);
    ApartBelow(l.legacy, q, [n]);
    NothingBelow(t, put, q);
    MovedSpec(t, Legacy(l, n), target, q);
    MovedSpec(t, Legacy(l, n), target, put);
    assert Legacy(l, n) + put[|put|..] == Legacy(l, n);
    NothingBelow(r, q, put);
  }

  lemma MigratedKeepsExisting(l: Layout, t: Tree, listing: seq<string>, q: Path)
    requires Sound(l) && l.legacy != [] && Exists(t, q) && Apart(l.legacy, q)
    ensures Exists(Migrated(l, t, listing).tree, q)
  {
    if IsDir(t, l.legacy) {
      MigratedIsSteps(l, t, listing);
      StepsKeepExisting(l, t, ToMove(l, t, listing), q);
      WithoutEmptySpec(Steps(l, t, ToMove(l, t, listing)).tree, l.legacy, q);
    } else {
      NothingToMove(l, t, listing);
    }
  }

  /** Nothing that the migration moves lands at the path or below it. */
  ghost predicate NoneLandsIn(l: Layout, t: Tree, listing: seq<string>, p: Path) {
    var names := ToMove(l, t, listing);
    forall i :: 0 <= i < |names| ==> !(p <= LandingOf(l, t, names, i))
  }

  /** A migration that ends well leaves what stands elsewhere whole exactly if nothing lands in it. */
  lemma StaysWholeExactlyIf(l: Layout, t: Tree, listing: seq<string>, p: Path)
    requires Sound(l) && l.legacy != [] && Distinct(listing) && Migrated(l, t, listing).ok
    requires Exists(t, p) && Apart(l.legacy, p)
    ensures Lookup(Migrated(l, t, listing).tree, p) == Lookup(t, p) <==> NoneLandsIn(l, t, listing, p)
  {
    var names, r := ToMove(l, t, listing), Migrated(l, t, listing).tree;
    if !IsDir(t, l.legacy) {
      NothingToMove(l, t, listing);
      assert names == [];
    } else {
      EndsWellExactlyIfReady(l, t, listing);
      ToMoveIsDistinct(l, t, listing);
      if NoneLandsIn(l, t, listing, p) {
        NoneInIsFarAway(l, t, listing, p);
        MigratedIsSteps(l, t, listing);
        RunElsewhere(l, t, names, p);
        WithoutEmptySpec(Steps(l, t, names).tree, l.legacy, p);
      } else {
        var i :| 0 <= i < |names| && p <= LandingOf(l, t, names, i);
        var landing := LandingOf(l, t, names, i);
        MigrationPlaces(l, t, listing, i);
        assert ReadyAt(l, t, names, i);
        if Lookup(r, p) == Lookup(t, p) {
          RootLookup(r, t, p, landing);
        }
      }
    }
  }

  lemma NoneInIsFarAway(l: Layout, t: Tree, listing: seq<string>, p: Path)
    requires Sound(l) && Ready(l, t, ToMove(l, t, listing))
    requires Exists(t, p) && Apart(l.legacy, p) && NoneLandsIn(l, t, listing, p)
    ensures FarAway(l, t, ToMove(l, t, listing), p)
  {
    var names := ToMove(l, t, listing);
    forall i | 0 <= i < |names| ensures Apart(LandingOf(l, t, names, i), p) && Apart(Legacy(l, names[i]), p) {
      assert ReadyAt(l, t, names, i);
      NothingBelow(t, LandingOf(l, t, names, i), p);
      ApartBelow(l.legacy, p, [names[i]]);
    }
  }

  /** The slots of the script, and what lies below them. */
  lemma ThreadLanding(c: Script, t: Tree, names: seq<string>, i: nat)
    requires i < |names|
    ensures var p := LandingOf(Threads(c), t, names, i);
      if Taken(Threads(c), t, names, i) then ["migration-conflicts", names[i]] <= p && (|p| > 2 ==> p[2] == names[i])
      else ["users", c.owner(names[i]), "threads", names[i]] <= p
  {
  }

  lemma AgentLanding(c: Script, t: Tree, names: seq<string>, i: nat)
    requires i < |names|
    ensures var p := LandingOf(Agents(c), t, names, i);
      ["migration-conflicts", "agents", names[i]] <= p || ["users", c.user, "agents"] <= p
  {
  }

  lemma SkillLanding(c: Script, t: Tree, names: seq<string>, i: nat)
    requires i < |names|
    ensures var p := LandingOf(Skills(c), t, names, i);
      ["migration-conflicts", "skills", names[i]] <= p || ["users", c.user, "skills"] <= p
  {
  }

  /** Where a thread stands no other part has a legacy directory, nor is the memory there. */
  lemma ThreadPlaceIsApart(c: Script, t: Tree, names: seq<string>, i: nat)
    requires i < |names|
    ensures var p := LandingOf(Threads(c), t, names, i);
      Apart(Agents(c).legacy, p) && Apart(Skills(c).legacy, p) && Apart(MEMORY, p) && Apart(BACKUP, p) && Apart(MemorySlot(c), p)
  {
    var p := LandingOf(Threads(c), t, names, i);
    ThreadLanding(c, t, names, i);
    ApartAt(Agents(c).legacy, p, 0);
    ApartAt(Skills(c).legacy, p, 0);
    ApartAt(MEMORY, p, 0);
    ApartAt(BACKUP, p, 0);
    ApartAt(MemorySlot(c), p, if p[0] == "users" then 2 else 0);
  }

  /**
    After a script that ends well a thread's directory is whole where it landed exactly if no
    agent and no skill has landed inside it.
   */
  lemma ThreadStaysWholeExactlyIf(c: Script, t: Tree, i: nat)
    requires Run(c, t).ok && Distinct(c.threads) && Distinct(c.agents) && Distinct(c.skills)
    requires i < |ToMove(Threads(c), t, c.threads)|
    ensures var names := ToMove(Threads(c), t, c.threads);
      var p := LandingOf(Threads(c), t, names, i);
      Lookup(Run(c, t).tree, p) == Lookup(t, Legacy(Threads(c), names[i]))
      <==> NoneLandsIn(Agents(c), TreeB(c, t), c.agents, p) && NoneLandsIn(Skills(c), TreeC(c, t), c.skills, p)
  {
    Layouts(c);
    RunParts(c, t);
    var names := ToMove(Threads(c), t, c.threads);
    var p := LandingOf(Threads(c), t, names, i);
    if !IsDir(t, Threads(c).legacy) {
      NothingToMove(Threads(c), t, c.threads);
    }
    MigrationPlaces(Threads(c), t, c.threads, i);
    EndsWellExactlyIfReady(Threads(c), t, c.threads);
    assert ReadyAt(Threads(c), t, names, i);
    ThreadPlaceIsApart(c, t, names, i);
    MemoryLeaves(c, TreeA(c, t), p);
    StaysWholeExactlyIf(Agents(c), TreeB(c, t), c.agents, p);
    WholeAfterSkills(c, t, p);
  }

  /** What an agent has landed in is not made whole again by the skills. */
  lemma WholeAfterSkills(c: Script, t: Tree, p: Path)
    requires Run(c, t).ok && Distinct(c.agents) && Distinct(c.skills)
    requires Exists(TreeB(c, t), p) && Apart(Agents(c).legacy, p) && Apart(Skills(c).legacy, p)
    ensures Lookup(Run(c, t).tree, p) == Lookup(TreeB(c, t), p)
      <==> NoneLandsIn(Agents(c), TreeB(c, t), c.agents, p) && NoneLandsIn(Skills(c), TreeC(c, t), c.skills, p)
  {
    Layouts(c);
    RunParts(c, t);
    var b, l := TreeB(c, t), Agents(c);
    StaysWholeExactlyIf(l, b, c.agents, p);
    MigratedKeepsExisting(l, b, c.agents, p);
    StaysWholeExactlyIf(Skills(c), TreeC(c, t), c.skills, p);
    if !NoneLandsIn(l, b, c.agents, p) {
      var names := ToMove(l, b, c.agents);
      var i :| 0 <= i < |names| && p <= LandingOf(l, b, names, i);
      AgentInside(c, t, i, p);
    }
  }

  lemma AgentInside(c: Script, t: Tree, i: nat, p: Path)
    requires Run(c, t).ok && Distinct(c.agents) && Distinct(c.skills)
    requires i < |ToMove(Agents(c), TreeB(c, t), c.agents)|
    requires p <= LandingOf(Agents(c), TreeB(c, t), ToMove(Agents(c), TreeB(c, t), c.agents), i)
    ensures Lookup(Run(c, t).tree, p) != Lookup(TreeB(c, t), p)
  {
    Layouts(c);
    RunParts(c, t);
    var b, l := TreeB(c, t), Agents(c);
    var names := ToMove(l, b, c.agents);
    var landing := LandingOf(l, b, names, i);
    if !IsDir(b, l.legacy) {
      NothingToMove(l, b, c.agents);
    }
    EndsWellExactlyIfReady(l, b, c.agents);
    MigrationPlaces(l, b, c.agents, i);
    assert ReadyAt(l, b, names, i);
    AgentLanding(c, b, names, i);
    ApartAt(Skills(c).legacy, landing, 0);
    MigratedKeepsExisting(Skills(c), TreeC(c, t), c.skills, landing);
    if Lookup(Run(c, t).tree, p) == Lookup(b, p) {
      RootLookup(Run(c, t).tree, b, p, landing);
    }
  }

  /** A thread's place, and a place below another kind's directory. */
  lemma NotBelow(p: Path, name: string, owner: string, q: Path, kind: string, user: string)
    requires (name != kind && ["migration-conflicts", name] <= p) || ["users", owner, "threads", name] <= p
    requires ["migration-conflicts", kind] <= q || ["users", user, kind] <= q
    requires kind != "threads"
    ensures !(p <= q)
  {
    if p[0] == q[0] {
      ApartAt(p, q, if p[0] == "users" then 2 else 1);
    } else {
      ApartAt(p, q, 0);
    }
  }

  /** The thread went to its owner, or has neither of the two names. */
  ghost predicate Unshared(c: Script, t: Tree, names: seq<string>, i: nat)
    requires i < |names|
  {
    !Taken(Threads(c), t, names, i) || (names[i] != "agents" && names[i] != "skills")
  }

  lemma NoAgentEnters(c: Script, t: Tree, names: seq<string>, i: nat, u: Tree, agents: seq<string>, j: nat)
    requires i < |names| && Unshared(c, t, names, i) && j < |agents|
    ensures !(LandingOf(Threads(c), t, names, i) <= LandingOf(Agents(c), u, agents, j))
  {
    ThreadLanding(c, t, names, i);
    AgentLanding(c, u, agents, j);
    NotBelow(LandingOf(Threads(c), t, names, i), names[i], c.owner(names[i]), LandingOf(Agents(c), u, agents, j), "agents", c.user);
  }

  lemma NoSkillEnters(c: Script, t: Tree, names: seq<string>, i: nat, u: Tree, skills: seq<string>, j: nat)
    requires i < |names| && Unshared(c, t, names, i) && j < |skills|
    ensures !(LandingOf(Threads(c), t, names, i) <= LandingOf(Skills(c), u, skills, j))
  {
    ThreadLanding(c, t, names, i);
    SkillLanding(c, u, skills, j);
    NotBelow(LandingOf(Threads(c), t, names, i), names[i], c.owner(names[i]), LandingOf(Skills(c), u, skills, j), "skills", c.user);
  }

  /** In terms of names: only a thread called `agents` or `skills` that went to the conflicts can be entered. */
  lemma OnlyTwoNamesAreShared(c: Script, t: Tree, i: nat)
    requires Run(c, t).ok && Distinct(c.threads) && Distinct(c.agents) && Distinct(c.skills)
    requires i < |ToMove(Threads(c), t, c.threads)| && Unshared(c, t, ToMove(Threads(c), t, c.threads), i)
    ensures var names := ToMove(Threads(c), t, c.threads);
      Lookup(Run(c, t).tree, LandingOf(Threads(c), t, names, i)) == Lookup(t, Legacy(Threads(c), names[i]))
  {
    var names := ToMove(Threads(c), t, c.threads);
    ThreadStaysWholeExactlyIf(c, t, i);
    var agents, skills := ToMove(Agents(c), TreeB(c, t), c.agents), ToMove(Skills(c), TreeC(c, t), c.skills);
    forall j | 0 <= j < |agents|
      ensures !(LandingOf(Threads(c), t, names, i) <= LandingOf(Agents(c), TreeB(c, t), agents, j))
    {
      NoAgentEnters(c, t, names, i, TreeB(c, t), agents, j);
    }
    forall j | 0 <= j < |skills|
      ensures !(LandingOf(Threads(c), t, names, i) <= LandingOf(Skills(c), TreeC(c, t), skills, j))
    {
      NoSkillEnters(c, t, names, i, TreeC(c, t), skills, j);
    }
  }

  /** With the conflict directory free at first, a thread called `agents` there is entered by any agent that conflicts. */
  lemma ConflictingAgentEnters(c: Script, t: Tree, i: nat, j: nat)
    requires Run(c, t).ok && Distinct(c.threads) && Distinct(c.agents) && Distinct(c.skills)
    requires i < |ToMove(Threads(c), t, c.threads)| && j < |ToMove(Agents(c), TreeB(c, t), c.agents)|
    requires var names := ToMove(Threads(c), t, c.threads);
      names[i] == "agents" && Taken(Threads(c), t, names, i) && !Exists(t, ["migration-conflicts", "agents"])
    requires Taken(Agents(c), TreeB(c, t), ToMove(Agents(c), TreeB(c, t), c.agents), j)
    ensures Lookup(Run(c, t).tree, ["migration-conflicts", "agents"]) != Lookup(t, ["threads", "agents"])
  {
    var names, agents := ToMove(Threads(c), t, c.threads), ToMove(Agents(c), TreeB(c, t), c.agents);
    var p := ["migration-conflicts", "agents"];
    assert LandingOf(Threads(c), t, names, i) == p && Legacy(Threads(c), "agents") == ["threads", "agents"];
    assert p <= LandingOf(Agents(c), TreeB(c, t), agents, j);
    ThreadStaysWholeExactlyIf(c, t, i);
  }
}
