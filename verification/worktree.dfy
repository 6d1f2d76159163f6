/**
 * The worktree manager: one git worktree and one branch `feat-<feature>` per
 * feature, created idempotently next to the project directory, removed on a
 * best-effort basis, merged back into the checked-out branch.
 *
 * The state these functions act on is the class `Workspace`; each of its methods
 * is proved against a function over `Shell.Snapshot`, and the promises of the
 * worktree manager are lemmas about those functions.
 */
module Worktree {
  import opened Wrappers
  import opened Paths
  import opened Shell

  /** The branch every operation on `feature` uses. */
  function BranchName(feature: string): string {
    "feat-" + feature
  }

  /** `<dirname(cwd)>/<basename(cwd)>-feat-<feature>`: a sibling of the project directory. */
  function WorktreePath(cwd: Path, feature: string): Path {
    Join(Dirname(cwd), Basename(cwd) + "-" + BranchName(feature))
  }

  datatype WorktreeInfo = WorktreeInfo(path: Path, branch: string, feature: string)

  /** The descriptor `createWorktree` returns on success. */
  function Info(cwd: Path, feature: string): WorktreeInfo {
    WorktreeInfo(WorktreePath(cwd, feature), BranchName(feature), feature)
  }

  /** The only files copied from the project into a new worktree, in this order. */
  const ConfigFiles: seq<string> := [".env", ".env.local", ".env.development.local", ".env.production.local"]

  /** The one directory copied (recursively) into a new worktree. */
  const PrismaDir: string := "prisma"

  // ---------------------------------------------------------------------
  // Path facts
  // ---------------------------------------------------------------------

  /** Different features never share a worktree. */
  lemma WorktreePathInjective(cwd: Path, f: string, g: string)
    requires WorktreePath(cwd, f) == WorktreePath(cwd, g)
    ensures f == g
  {
    var x := Basename(cwd) + "-" + BranchName(f);
    var y := Basename(cwd) + "-" + BranchName(g);
    assert x == WorktreePath(cwd, f)[|Dirname(cwd)|];
    assert y == WorktreePath(cwd, g)[|Dirname(cwd)|];
    assert f == x[|Basename(cwd)| + 6..];
    assert g == y[|Basename(cwd)| + 6..];
  }

  /** The worktree is never the project directory itself. */
  lemma WorktreeIsNotProject(cwd: Path, feature: string)
    ensures WorktreePath(cwd, feature) != cwd
  {
    if cwd != [] {
      assert Dirname(cwd) + [Basename(cwd)] == cwd;
      assert |Basename(cwd) + "-" + BranchName(feature)| > |Basename(cwd)|;
    }
  }

  /**
   * A project entry whose name does not start with '-' is neither the worktree
   * nor anything directly inside it.
   */
  lemma ProjectEntryOutsideWorktree(cwd: Path, feature: string, name: string, inner: string)
    requires name != "" && name[0] != '-'
    ensures Join(cwd, name) != WorktreePath(cwd, feature)
    ensures Join(cwd, name) != Join(WorktreePath(cwd, feature), inner)
  {
    WorktreeIsNotProject(cwd, feature);
    var wt := WorktreePath(cwd, feature);
    if cwd == [] {
      assert Join(cwd, name)[0] == name;
      assert wt[0][0] == '-';
    } else {
      assert |Join(cwd, name)| != |wt|;
      assert Join(cwd, name)[..|cwd|] == cwd && Join(wt, inner)[..|wt|] == wt;
    }
  }

  // ---------------------------------------------------------------------
  // createWorktree, as a function of the state it starts from
  // ---------------------------------------------------------------------

  /** The copy loop over the allow-list: each listed file that exists in the project is copied. */
  function CopyConfigs(a: Attempt, cwd: Path, wt: Path, names: seq<string>, ok: Command -> bool): Attempt
    decreases |names|
  {
    if names == [] || a.failed.Some? then a
    else
      var src := Join(cwd, names[0]);
      CopyConfigs(if src in a.st.fs then Then(a, CopyFile(src, Join(wt, names[0])), ok) else a, cwd, wt, names[1..], ok)
  }

  /** The commands the copy loop issues when every copy succeeds. */
  function CopyPlan(fs: map<Path, Node>, cwd: Path, wt: Path, names: seq<string>): (plan: seq<Command>)
    decreases |names|
  {
    if names == [] then []
    else
      var rest := CopyPlan(fs, cwd, wt, names[1..]);
      (if Join(cwd, names[0]) in fs then [CopyFile(Join(cwd, names[0]), Join(wt, names[0]))] else []) + rest
  }

  /** The plan copies exactly the allow-listed files the project has, each to the same name in the worktree. */
  lemma {:induction false} CopyPlanContents(fs: map<Path, Node>, cwd: Path, wt: Path, names: seq<string>)
    ensures var plan := CopyPlan(fs, cwd, wt, names);
      && (forall c :: c in plan ==> c.CopyFile? && exists n :: n in names && Join(cwd, n) in fs && c == CopyFile(Join(cwd, n), Join(wt, n)))
      && (forall n :: n in names && Join(cwd, n) in fs ==> CopyFile(Join(cwd, n), Join(wt, n)) in plan)
    decreases |names|
  {
    if names != [] {
      CopyPlanContents(fs, cwd, wt, names[1..]);
      assert forall n :: n in names[1..] ==> n in names;
      assert forall n :: n in names ==> n == names[0] || n in names[1..];
    }
  }

  /** Listing the branch, creating it only when the listing is blank, adding the worktree. */
  function Prepare(st: Snapshot, info: WorktreeInfo, ok: Command -> bool): Attempt {
    var listed := Then(Attempt(st, None), BranchList(info.branch), ok);
    // `git branch --list b` prints nothing exactly when b does not exist
    var branched := if listed.failed.None? && info.branch !in listed.st.branches
                    then Then(listed, BranchCreate(info.branch), ok) else listed;
    Then(branched, WorktreeAdd(info.path, info.branch), ok)
  }

  /** Copying the prisma directory if the project has one. */
  function CopyPrisma(a: Attempt, cwd: Path, wt: Path, ok: Command -> bool): Attempt {
    var prisma := Join(cwd, PrismaDir);
    if a.failed.None? && prisma in a.st.fs then Then(a, CopyDir(prisma, Join(wt, PrismaDir)), ok) else a
  }

  /** `createWorktree(feature)` run from `cwd`: the final state and the descriptor or the command that threw. */
  function CreateSpec(st: Snapshot, cwd: Path, feature: string, ok: Command -> bool): (Snapshot, Result<WorktreeInfo, Command>) {
    var info := Info(cwd, feature);
    if info.path in st.fs then (st, Success(info))
    else
      var done := CreateFresh(st, cwd, feature, ok);
      (done.st, if done.failed.Some? then Failure(done.failed.value) else Success(info))
  }

  /** The steps of a creation whose path did not exist yet. */
  function CreateFresh(st: Snapshot, cwd: Path, feature: string, ok: Command -> bool): Attempt {
    var info := Info(cwd, feature);
    CopyPrisma(CopyConfigs(Prepare(st, info, ok), cwd, info.path, ConfigFiles, ok), cwd, info.path, ok)
  }

  // ---------------------------------------------------------------------
  // removeWorktree, mergeFeature, hasCommits
  // ---------------------------------------------------------------------

  /** What `removeWorktree` reports about the worktree directory. */
  datatype RemoveOutcome =
    | NoWorktree      // the path did not exist: nothing attempted
    | Removed         // `git worktree remove --force` succeeded
    | ForceRemoved    // the fallback (delete the folder, then prune) succeeded
    | RemoveWarning   // both strategies failed: only a warning to delete by hand

  /** The worktree part of `removeWorktree`: the removal strategies, tried in order. */
  function RemoveDirSpec(st: Snapshot, wt: Path, ok: Command -> bool): (Snapshot, RemoveOutcome) {
    if wt !in st.fs then (st, NoWorktree)
    else if ok(WorktreeRemove(wt)) then (Run(st, WorktreeRemove(wt), true), Removed)
    else
      var tried := Run(st, WorktreeRemove(wt), false);
      if !ok(ForceDelete(wt)) then (Run(tried, ForceDelete(wt), false), RemoveWarning)
      else
        var deleted := Run(tried, ForceDelete(wt), true);
        (Run(deleted, WorktreePrune, ok(WorktreePrune)), if ok(WorktreePrune) then ForceRemoved else RemoveWarning)
  }

  /** `removeWorktree(feature, deleteBranch)` run from `cwd`. */
  function RemoveSpec(st: Snapshot, cwd: Path, feature: string, deleteBranch: bool, ok: Command -> bool): (Snapshot, RemoveOutcome) {
    var (afterDir, outcome) := RemoveDirSpec(st, WorktreePath(cwd, feature), ok);
    var b := BranchName(feature);
    (if deleteBranch then Run(afterDir, BranchDelete(b), ok(BranchDelete(b))) else afterDir, outcome)
  }

  /** `git log HEAD..<branch>` prints something exactly when the branch has commits HEAD lacks. */
  predicate HasCommitsSpec(st: Snapshot, feature: string, ok: Command -> bool) {
    var b := BranchName(feature);
    ok(Log(b)) && b in st.branches && Commits(st, b) - Commits(st, st.head) != {}
  }

  // ---------------------------------------------------------------------
  // What createWorktree promises
  // ---------------------------------------------------------------------

  /** The copy loop only copies: git state is untouched, no path disappears, the history only grows. */
  lemma {:induction false} CopyConfigsFrame(a: Attempt, cwd: Path, wt: Path, names: seq<string>, ok: Command -> bool)
    requires Consistent(a, ok)
    ensures var r := CopyConfigs(a, cwd, wt, names, ok);
      && Consistent(r, ok)
      && r.st.branches == a.st.branches && r.st.head == a.st.head
      && r.st.worktrees == a.st.worktrees && r.st.processes == a.st.processes
      && a.st.fs.Keys <= r.st.fs.Keys
      && (a.failed.Some? ==> r == a)
      && |a.st.history| <= |r.st.history| && r.st.history[..|a.st.history|] == a.st.history
    decreases |names|
  {
    if names != [] && a.failed.None? {
      var src := Join(cwd, names[0]);
      var next := if src in a.st.fs then Then(a, CopyFile(src, Join(wt, names[0])), ok) else a;
      CopyConfigsFrame(next, cwd, wt, names[1..], ok);
    }
  }

  /** The plan depends only on which project entries exist. */
  lemma {:induction false} CopyPlanDependsOnProject(fs1: map<Path, Node>, fs2: map<Path, Node>, cwd: Path, wt: Path, names: seq<string>)
    requires forall n :: n in names ==> (Join(cwd, n) in fs1 <==> Join(cwd, n) in fs2)
    ensures CopyPlan(fs1, cwd, wt, names) == CopyPlan(fs2, cwd, wt, names)
    decreases |names|
  {
    if names != [] {
      CopyPlanDependsOnProject(fs1, fs2, cwd, wt, names[1..]);
    }
  }

  /** One step of the copy loop: the copy is attempted exactly when the project file exists. */
  function CopyStep(a: Attempt, cwd: Path, wt: Path, name: string, ok: Command -> bool): (r: Attempt)
    requires a.failed.None?
    ensures Join(cwd, name) !in a.st.fs ==> r == a
    ensures Join(cwd, name) in a.st.fs ==>
      && r.st.history == a.st.history + [CopyFile(Join(cwd, name), Join(wt, name))]
      && (r.failed.None? ==> r.st.fs == a.st.fs[Join(wt, name) := a.st.fs[Join(cwd, name)]])
      && (r.failed.Some? ==> r.st.fs == a.st.fs)
  {
    var src := Join(cwd, name);
    if src in a.st.fs then Then(a, CopyFile(src, Join(wt, name)), ok) else a
  }

  lemma CopyConfigsUnfold(a: Attempt, cwd: Path, wt: Path, names: seq<string>, ok: Command -> bool)
    requires a.failed.None? && names != []
    ensures CopyConfigs(a, cwd, wt, names, ok) == CopyConfigs(CopyStep(a, cwd, wt, names[0], ok), cwd, wt, names[1..], ok)
  {
  }

  /** When no copy throws, the loop issues exactly the planned copies, in allow-list order. */
  lemma {:induction false} CopyConfigsFollowsPlan(a: Attempt, cwd: Path, feature: string, names: seq<string>, ok: Command -> bool)
    requires a.failed.None?
    requires forall n :: n in names ==> n != "" && n[0] != '-'
    requires CopyConfigs(a, cwd, WorktreePath(cwd, feature), names, ok).failed.None?
    ensures CopyConfigs(a, cwd, WorktreePath(cwd, feature), names, ok).st.history
         == a.st.history + CopyPlan(a.st.fs, cwd, WorktreePath(cwd, feature), names)
    decreases |names|
  {
    var wt := WorktreePath(cwd, feature);
    if names != [] {
      CopyConfigsUnfold(a, cwd, wt, names, ok);
      var next := CopyStep(a, cwd, wt, names[0], ok);
      CopyConfigsFrame(next, cwd, wt, names[1..], ok);
      assert next.failed.None?;
      CopyStepKeepsPlan(a, cwd, feature, names, ok);
      assert forall n :: n in names[1..] ==> n in names;
      CopyConfigsFollowsPlan(next, cwd, feature, names[1..], ok);
      var step := if Join(cwd, names[0]) in a.st.fs then [CopyFile(Join(cwd, names[0]), Join(wt, names[0]))] else [];
      assert next.st.history == a.st.history + step;
    }
  }

  /** A copy into the worktree does not change which project files the rest of the loop finds. */
  lemma CopyStepKeepsPlan(a: Attempt, cwd: Path, feature: string, names: seq<string>, ok: Command -> bool)
    requires a.failed.None? && names != []
    requires forall n :: n in names ==> n != "" && n[0] != '-'
    ensures var wt := WorktreePath(cwd, feature);
      CopyPlan(CopyStep(a, cwd, wt, names[0], ok).st.fs, cwd, wt, names[1..]) == CopyPlan(a.st.fs, cwd, wt, names[1..])
  {
    var wt := WorktreePath(cwd, feature);
    var next := CopyStep(a, cwd, wt, names[0], ok);
    forall n | n in names[1..]
      ensures Join(cwd, n) in next.st.fs <==> Join(cwd, n) in a.st.fs
    {
      assert n in names;
      ProjectEntryOutsideWorktree(cwd, feature, n, names[0]);
    }
    CopyPlanDependsOnProject(next.st.fs, a.st.fs, cwd, wt, names[1..]);
  }

  /** What the preparation steps do, whether or not they throw. */
  lemma PrepareFacts(st: Snapshot, cwd: Path, feature: string, ok: Command -> bool)
    ensures var a := Prepare(st, Info(cwd, feature), ok);
      var b := BranchName(feature);
      var wt := WorktreePath(cwd, feature);
      && Consistent(a, ok)
      && a.st.head == st.head && a.st.processes == st.processes
      && (b in st.branches ==> a.st.branches == st.branches && BranchCreate(b) !in a.st.history[|st.history|..])
      && (a.failed.None? ==>
            && a.st.history == st.history + [BranchList(b)] + (if b in st.branches then [] else [BranchCreate(b)]) + [WorktreeAdd(wt, b)]
            && a.st.branches == (if b in st.branches then st.branches else st.branches[b := Commits(st, st.head)])
            && a.st.worktrees == st.worktrees + {wt}
            && a.st.fs == st.fs[wt := Dir])
      && |st.history| < |a.st.history| && a.st.history[..|st.history|] == st.history
  {
    var b := BranchName(feature);
    var a := Prepare(st, Info(cwd, feature), ok);
    if b in st.branches {
      assert a.st.history[|st.history|..] == [BranchList(b)] || a.st.history[|st.history|..] == [BranchList(b), WorktreeAdd(WorktreePath(cwd, feature), b)];
    }
  }

  /** Copying prisma touches only paths inside the worktree's prisma directory. */
  lemma CopyPrismaFacts(a: Attempt, cwd: Path, feature: string, ok: Command -> bool)
    requires Consistent(a, ok)
    ensures var r := CopyPrisma(a, cwd, WorktreePath(cwd, feature), ok);
      var prisma := Join(cwd, PrismaDir);
      && Consistent(r, ok)
      && r.st.branches == a.st.branches && r.st.worktrees == a.st.worktrees && r.st.head == a.st.head
      && r.st.processes == a.st.processes
      && a.st.fs.Keys <= r.st.fs.Keys
      && (a.failed.Some? ==> r == a)
      && (r.failed.None? ==> r.st.history == a.st.history + (if prisma in a.st.fs then [CopyDir(prisma, Join(WorktreePath(cwd, feature), PrismaDir))] else []))
      && |a.st.history| <= |r.st.history| <= |a.st.history| + 1 && r.st.history[..|a.st.history|] == a.st.history
      && (forall i :: |a.st.history| <= i < |r.st.history| ==> r.st.history[i].CopyDir?)
  {
  }

  /**
   * A fresh creation that returns normally ran, in order: the branch listing,
   * the branch creation only if the branch was absent, the worktree addition,
   * then one copy per allow-listed file present in the project and the prisma
   * directory if present, and nothing else. The worktree exists and is
   * registered, and the only branch change is the new branch.
   */
  lemma CreateFreshSuccess(st: Snapshot, cwd: Path, feature: string, ok: Command -> bool)
    requires WorktreePath(cwd, feature) !in st.fs
    requires CreateSpec(st, cwd, feature, ok).1.Success?
    ensures var st1 := CreateSpec(st, cwd, feature, ok).0;
      var b := BranchName(feature);
      var wt := WorktreePath(cwd, feature);
      var prisma := Join(cwd, PrismaDir);
      && st1.history == st.history + [BranchList(b)]
                        + (if b in st.branches then [] else [BranchCreate(b)])
                        + [WorktreeAdd(wt, b)]
                        + CopyPlan(st.fs, cwd, wt, ConfigFiles)
                        + (if prisma in st.fs then [CopyDir(prisma, Join(wt, PrismaDir))] else [])
      && st1.branches == (if b in st.branches then st.branches else st.branches[b := Commits(st, st.head)])
      && st1.worktrees == st.worktrees + {wt}
      && wt in st1.fs
  {
    var info := Info(cwd, feature);
    var wt := info.path;
    var added := Prepare(st, info, ok);
    PrepareFacts(st, cwd, feature, ok);
    CopyConfigsFrame(added, cwd, wt, ConfigFiles, ok);
    var copied := CopyConfigs(added, cwd, wt, ConfigFiles, ok);
    CopyPrismaFacts(copied, cwd, feature, ok);
    assert added.failed.None? && copied.failed.None?;
    forall n | n in ConfigFiles ensures Join(cwd, n) in added.st.fs <==> Join(cwd, n) in st.fs {
      ProjectEntryOutsideWorktree(cwd, feature, n, "");
    }
    CopyPlanDependsOnProject(added.st.fs, st.fs, cwd, wt, ConfigFiles);
    CopyConfigsFollowsPlan(added, cwd, feature, ConfigFiles, ok);
    var prisma := Join(cwd, PrismaDir);
    assert prisma in copied.st.fs <==> prisma in st.fs by {
      ProjectEntryOutsideWorktree(cwd, feature, PrismaDir, "");
      forall n | n in ConfigFiles ensures Join(wt, n) != prisma {
        ProjectEntryOutsideWorktree(cwd, feature, PrismaDir, n);
      }
      CopiesStayInWorktree(added, cwd, wt, ConfigFiles, ok, prisma);
    }
  }

  /** The copy loop adds or changes nothing except entries directly inside the worktree. */
  lemma {:induction false} CopiesStayInWorktree(a: Attempt, cwd: Path, wt: Path, names: seq<string>, ok: Command -> bool, p: Path)
    requires forall n :: n in names ==> Join(wt, n) != p
    ensures var r := CopyConfigs(a, cwd, wt, names, ok);
      (p in r.st.fs <==> p in a.st.fs) && (p in a.st.fs ==> r.st.fs[p] == a.st.fs[p])
    decreases |names|
  {
    if names != [] && a.failed.None? {
      var src := Join(cwd, names[0]);
      var next := if src in a.st.fs then Then(a, CopyFile(src, Join(wt, names[0])), ok) else a;
      CopiesStayInWorktree(next, cwd, wt, names[1..], ok, p);
    }
  }

  /**
   * Idempotence: after a call that returned a descriptor, a second call
   * returns the same descriptor and changes nothing, whatever its commands
   * would do.
   */
  lemma CreateTwice(st: Snapshot, cwd: Path, feature: string, ok1: Command -> bool, ok2: Command -> bool)
    requires CreateSpec(st, cwd, feature, ok1).1.Success?
    ensures CreateSpec(st, cwd, feature, ok1).1 == Success(Info(cwd, feature))
    ensures var st1 := CreateSpec(st, cwd, feature, ok1).0;
      CreateSpec(st1, cwd, feature, ok2) == (st1, Success(Info(cwd, feature)))
  {
    if WorktreePath(cwd, feature) !in st.fs {
      CreateFreshSuccess(st, cwd, feature, ok1);
    }
  }

  /** The commands issued after `from` include no creation of `b`. */
  predicate NoCreationAfter(h: seq<Command>, from: nat, b: string) {
    forall i :: from <= i < |h| ==> h[i] != BranchCreate(b)
  }

  lemma FreshKeepsBranch(st: Snapshot, cwd: Path, feature: string, ok: Command -> bool)
    requires BranchName(feature) in st.branches
    ensures CreateFresh(st, cwd, feature, ok).st.branches == st.branches
    ensures NoCreationAfter(CreateFresh(st, cwd, feature, ok).st.history, |st.history|, BranchName(feature))
  {
    var info := Info(cwd, feature);
    var b, wt := info.branch, info.path;
    var added := Prepare(st, info, ok);
    PrepareFacts(st, cwd, feature, ok);
    CopyConfigsFrame(added, cwd, wt, ConfigFiles, ok);
    CopyConfigsOnlyCopies(added, cwd, wt, ConfigFiles, ok);
    var copied := CopyConfigs(added, cwd, wt, ConfigFiles, ok);
    CopyPrismaFacts(copied, cwd, feature, ok);
    var h := CreateFresh(st, cwd, feature, ok).st.history;
    var n0, n1, n2 := |st.history|, |added.st.history|, |copied.st.history|;
    forall i | n0 <= i < |h| ensures h[i] != BranchCreate(b) {
      if i < n1 {
        assert h[i] == added.st.history[i];
        assert added.st.history[i] in added.st.history[n0..];
      } else if i < n2 {
        assert h[i] == copied.st.history[i];
      }
    }
  }

  /** An existing branch is reused untouched, whether or not the call succeeds. */
  lemma CreateKeepsExistingBranch(st: Snapshot, cwd: Path, feature: string, ok: Command -> bool)
    requires BranchName(feature) in st.branches
    ensures CreateSpec(st, cwd, feature, ok).0.branches == st.branches
    ensures NoCreationAfter(CreateSpec(st, cwd, feature, ok).0.history, |st.history|, BranchName(feature))
  {
    if WorktreePath(cwd, feature) !in st.fs {
      FreshKeepsBranch(st, cwd, feature, ok);
    }
  }

  /** Every command the copy loop runs is a file copy. */
  lemma {:induction false} CopyConfigsOnlyCopies(a: Attempt, cwd: Path, wt: Path, names: seq<string>, ok: Command -> bool)
    ensures var r := CopyConfigs(a, cwd, wt, names, ok);
      |a.st.history| <= |r.st.history| && r.st.history[..|a.st.history|] == a.st.history
      && forall i :: |a.st.history| <= i < |r.st.history| ==> r.st.history[i].CopyFile?
    decreases |names|
  {
    if names != [] && a.failed.None? {
      var src := Join(cwd, names[0]);
      var next := if src in a.st.fs then Then(a, CopyFile(src, Join(wt, names[0])), ok) else a;
      CopyConfigsOnlyCopies(next, cwd, wt, names[1..], ok);
    }
  }

  /** A fresh creation always runs at least one command, and stops at the first that throws. */
  lemma CreateFreshConsistent(st: Snapshot, cwd: Path, feature: string, ok: Command -> bool)
    ensures Consistent(CreateFresh(st, cwd, feature, ok), ok)
    ensures |CreateFresh(st, cwd, feature, ok).st.history| > |st.history|
  {
    var info := Info(cwd, feature);
    var added := Prepare(st, info, ok);
    PrepareFacts(st, cwd, feature, ok);
    CopyConfigsFrame(added, cwd, info.path, ConfigFiles, ok);
    CopyPrismaFacts(CopyConfigs(added, cwd, info.path, ConfigFiles, ok), cwd, feature, ok);
  }

  /** Creating a worktree starts no process. */
  lemma CreateKeepsProcesses(st: Snapshot, cwd: Path, feature: string, ok: Command -> bool)
    ensures CreateSpec(st, cwd, feature, ok).0.processes == st.processes
  {
    if WorktreePath(cwd, feature) !in st.fs {
      var info := Info(cwd, feature);
      var added := Prepare(st, info, ok);
      PrepareFacts(st, cwd, feature, ok);
      CopyConfigsFrame(added, cwd, info.path, ConfigFiles, ok);
      CopyPrismaFacts(CopyConfigs(added, cwd, info.path, ConfigFiles, ok), cwd, feature, ok);
    }
  }

  /** Errors propagate: the error returned is the last command run, and it failed. */
  lemma CreateFailurePropagates(st: Snapshot, cwd: Path, feature: string, ok: Command -> bool)
    requires CreateSpec(st, cwd, feature, ok).1.Failure?
    ensures !ok(CreateSpec(st, cwd, feature, ok).1.error)
    ensures |CreateSpec(st, cwd, feature, ok).0.history| > |st.history|
    ensures Last(CreateSpec(st, cwd, feature, ok).0.history) == CreateSpec(st, cwd, feature, ok).1.error
  {
    var done := CreateFresh(st, cwd, feature, ok);
    CreateFreshConsistent(st, cwd, feature, ok);
    assert CreateSpec(st, cwd, feature, ok) == (done.st, Failure(done.failed.value));
    assert Last(done.st.history) == done.failed.value;
  }

  // ---------------------------------------------------------------------
  // What removeWorktree, mergeFeature and hasCommits promise
  // ---------------------------------------------------------------------

  /**
   * The removal strategies run in order and stop at the first that works:
   * `Removed` and `ForceRemoved` leave nothing at or below the worktree path
   * and the worktree unregistered; a missing path is left alone entirely. No
   * filesystem entry outside the worktree path changes, nothing is created or
   * registered, and every other registered worktree whose directory exists
   * (outside this one) stays registered; the prune after a forced delete does
   * drop registrations whose directories are already gone.
   */
  lemma RemoveWorktreeOutcome(st: Snapshot, cwd: Path, feature: string, deleteBranch: bool, ok: Command -> bool)
    ensures var (st1, outcome) := RemoveSpec(st, cwd, feature, deleteBranch, ok);
      var wt := WorktreePath(cwd, feature);
      && (outcome == NoWorktree <==> wt !in st.fs)
      && (outcome == Removed <==> wt in st.fs && ok(WorktreeRemove(wt)))
      && (outcome == ForceRemoved <==> wt in st.fs && !ok(WorktreeRemove(wt)) && ok(ForceDelete(wt)) && ok(WorktreePrune))
      && (outcome == NoWorktree ==> st1.fs == st.fs && st1.worktrees == st.worktrees)
      && (outcome == Removed || outcome == ForceRemoved ==>
            (forall p :: p in st1.fs ==> !Within(wt, p)) && wt !in st1.worktrees)
      && (forall p :: p in st.fs && !Within(wt, p) ==> p in st1.fs && st1.fs[p] == st.fs[p])
      && (forall p :: p in st1.fs ==> p in st.fs)
      && st1.worktrees <= st.worktrees
      && (forall w :: w in st.worktrees && w in st.fs && !Within(wt, w) ==> w in st1.worktrees)
  {
    var wt := WorktreePath(cwd, feature);
    assert Within(wt, wt);
  }

  /** Removing a worktree never switches the current branch nor touches another branch. */
  lemma RemoveKeepsHead(st: Snapshot, cwd: Path, feature: string, deleteBranch: bool, ok: Command -> bool)
    ensures var st1 := RemoveSpec(st, cwd, feature, deleteBranch, ok).0;
      && st1.head == st.head
      && forall b :: b != BranchName(feature) ==> Commits(st1, b) == Commits(st, b)
  {
    var afterDir := RemoveDirSpec(st, WorktreePath(cwd, feature), ok).0;
    assert afterDir.head == st.head && afterDir.branches == st.branches;
  }

  /** With `deleteBranch` a forced delete is attempted last and its failure swallowed; without it branches are untouched. */
  lemma RemoveWorktreeBranch(st: Snapshot, cwd: Path, feature: string, deleteBranch: bool, ok: Command -> bool)
    ensures var st1 := RemoveSpec(st, cwd, feature, deleteBranch, ok).0;
      var b := BranchName(feature);
      && (!deleteBranch ==> st1.branches == st.branches)
      && (deleteBranch ==> st1.history[|st1.history| - 1] == BranchDelete(b))
      && (deleteBranch && ok(BranchDelete(b)) ==> st1.branches == st.branches - {b})
      && (deleteBranch && !ok(BranchDelete(b)) ==> st1.branches == st.branches)
  {
  }

  /** A branch pointing at the same commits as HEAD has nothing to merge. */
  lemma NoCommitsOnSameTip(st: Snapshot, feature: string, ok: Command -> bool)
    requires Commits(st, BranchName(feature)) <= Commits(st, st.head)
    ensures !HasCommitsSpec(st, feature, ok)
  {
  }

  /** A branch with one commit HEAD lacks has commits, provided the log command itself works. */
  lemma OneUniqueCommit(st: Snapshot, feature: string, ok: Command -> bool, c: Commit)
    requires ok(Log(BranchName(feature))) && BranchName(feature) in st.branches
    requires c in Commits(st, BranchName(feature)) && c !in Commits(st, st.head)
    ensures HasCommitsSpec(st, feature, ok)
  {
    assert c in Commits(st, BranchName(feature)) - Commits(st, st.head);
  }

  /** After a successful merge, the feature branch has no commits HEAD lacks. */
  lemma MergeClearsPending(st: Snapshot, feature: string, ok: Command -> bool)
    ensures !HasCommitsSpec(Run(st, Merge(BranchName(feature)), true), feature, ok)
  {
    var b := BranchName(feature);
    var st1 := Run(st, Merge(b), true);
    assert Commits(st1, b) <= Commits(st1, st1.head);
  }

  // ---------------------------------------------------------------------
  // The workspace, updated in place
  // ---------------------------------------------------------------------

  class Workspace {
    var fs: map<Path, Node>
    var branches: map<string, set<Commit>>
    var head: string
    var worktrees: set<Path>
    var processes: seq<Launch>
    var history: seq<Command>

    function Snap(): Snapshot
      reads this
    {
      Snapshot(fs, branches, head, worktrees, processes, history)
    }

    constructor (init: Snapshot)
      ensures Snap() == init
    {
      fs, branches, head := init.fs, init.branches, init.head;
      worktrees, processes, history := init.worktrees, init.processes, init.history;
    }

    method Become(st: Snapshot)
      modifies this
      ensures Snap() == st
    {
      fs, branches, head := st.fs, st.branches, st.head;
      worktrees, processes, history := st.worktrees, st.processes, st.history;
    }

    /** Runs one command (`execSync`, `copyFileSync`, `writeFileSync`, ...); false when it throws. */
    method Exec(c: Command, ok: Command -> bool) returns (success: bool)
      modifies this
      ensures success == ok(c)
      ensures Snap() == Run(old(Snap()), c, success)
    {
      success := ok(c);
      Become(Run(Snap(), c, success));
    }

    /** Starts a detached process and does not wait for it. */
    method StartDetached(l: Launch)
      modifies this
      ensures Snap() == Start(old(Snap()), l)
    {
      processes := processes + [l];
    }

    /** createWorktree: returns the descriptor, or the command whose failure propagates. */
    method CreateWorktree(cwd: Path, feature: string, ok: Command -> bool) returns (r: Result<WorktreeInfo, Command>)
      modifies this
      ensures (Snap(), r) == CreateSpec(old(Snap()), cwd, feature, ok)
    {
      var info := Info(cwd, feature);
      if info.path in fs {
        return Success(info);
      }
      var failed := AddWorktree(info, ok);
      if failed.None? {
        failed := CopyConfigFiles(cwd, info.path, ok);
      }
      if failed.None? {
        failed := CopyPrismaDir(cwd, info.path, ok);
      }
      if failed.Some? {
        return Failure(failed.value);
      }
      return Success(info);
    }

    /** The first steps of createWorktree: list the branch, create it when missing, add the worktree. */
    method AddWorktree(info: WorktreeInfo, ok: Command -> bool) returns (failed: Option<Command>)
      modifies this
      ensures Attempt(Snap(), failed) == Prepare(old(Snap()), info, ok)
    {
      var listed := Exec(BranchList(info.branch), ok);
      if !listed {
        return Some(BranchList(info.branch));
      }
      if info.branch !in branches {
        var created := Exec(BranchCreate(info.branch), ok);
        if !created {
          return Some(BranchCreate(info.branch));
        }
      }
      var added := Exec(WorktreeAdd(info.path, info.branch), ok);
      if !added {
        return Some(WorktreeAdd(info.path, info.branch));
      }
      return None;
    }

    /** The copy loop over the allow-listed configuration files; the first copy that throws stops it. */
    method CopyConfigFiles(cwd: Path, path: Path, ok: Command -> bool) returns (failed: Option<Command>)
      modifies this
      ensures Attempt(Snap(), failed) == CopyConfigs(Attempt(old(Snap()), None), cwd, path, ConfigFiles, ok)
    {
      var i := 0;
      while i < |ConfigFiles|
        invariant 0 <= i <= |ConfigFiles|
        invariant CopyConfigs(Attempt(old(Snap()), None), cwd, path, ConfigFiles, ok)
               == CopyConfigs(Attempt(Snap(), None), cwd, path, ConfigFiles[i..], ok)
      {
        var src := Join(cwd, ConfigFiles[i]);
        if src in fs {
          var copied := Exec(CopyFile(src, Join(path, ConfigFiles[i])), ok);
          if !copied {
            return Some(CopyFile(src, Join(path, ConfigFiles[i])));
          }
        }
        i := i + 1;
      }
      return None;
    }

    /** Copying the prisma directory when the project has one. */
    method CopyPrismaDir(cwd: Path, path: Path, ok: Command -> bool) returns (failed: Option<Command>)
      modifies this
      ensures Attempt(Snap(), failed) == CopyPrisma(Attempt(old(Snap()), None), cwd, path, ok)
    {
      var prisma := Join(cwd, PrismaDir);
      if prisma in fs {
        var copied := Exec(CopyDir(prisma, Join(path, PrismaDir)), ok);
        if !copied {
          return Some(CopyDir(prisma, Join(path, PrismaDir)));
        }
      }
      return None;
    }

    /** removeWorktree: never throws; reports which removal strategy worked. */
    method RemoveWorktree(cwd: Path, feature: string, ok: Command -> bool, deleteBranch: bool := true) returns (outcome: RemoveOutcome)
      modifies this
      ensures (Snap(), outcome) == RemoveSpec(old(Snap()), cwd, feature, deleteBranch, ok)
    {
      var branch := BranchName(feature);
      var path := WorktreePath(cwd, feature);
      outcome := NoWorktree;
      if path in fs {
        var removed := Exec(WorktreeRemove(path), ok);
        if removed {
          outcome := Removed;
        } else {
          var deleted := Exec(ForceDelete(path), ok);
          if deleted {
            var pruned := Exec(WorktreePrune, ok);
            outcome := if pruned then ForceRemoved else RemoveWarning;
          } else {
            outcome := RemoveWarning;
          }
        }
      }
      if deleteBranch {
        // a failure (no such branch, unmerged history) is swallowed
        var _ := Exec(BranchDelete(branch), ok);
      }
    }

    /** mergeFeature: true iff `git merge feat-<feature> --no-edit` succeeds; never throws. */
    method MergeFeature(feature: string, ok: Command -> bool) returns (merged: bool)
      modifies this
      ensures merged == ok(Merge(BranchName(feature)))
      ensures Snap() == Run(old(Snap()), Merge(BranchName(feature)), merged)
    {
      merged := Exec(Merge(BranchName(feature)), ok);
    }

    /** hasCommits: true iff the feature branch has commits HEAD lacks; false on any failure. */
    method HasCommits(feature: string, ok: Command -> bool) returns (ahead: bool)
      modifies this
      ensures ahead == HasCommitsSpec(old(Snap()), feature, ok)
      ensures Snap() == Run(old(Snap()), Log(BranchName(feature)), ok(Log(BranchName(feature))))
    {
      var branch := BranchName(feature);
      var before := Snap();
      var logged := Exec(Log(branch), ok);
      if !logged {
        return false;
      }
      ahead := branch in before.branches && Commits(before, branch) - Commits(before, before.head) != {};
    }
  }
}
