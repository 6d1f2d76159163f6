/**
 * `vibecode merge <feature> [--no-cleanup]`: warns when the feature branch has
 * nothing new, merges it into the current branch, and (unless told not to)
 * removes the feature's worktree, its branch and its status file.
 */
module MergeCommand {
  import opened Wrappers
  import opened Paths
  import opened Shell
  import opened Worktree

  /** How the command ends. */
  datatype MergeOutcome =
    | Merged(noCommitsWarning: bool, cleanup: Option<RemoveOutcome>, statusFileRemoved: bool)   // exit code 0
    | MergeFailed(noCommitsWarning: bool, guidance: string)                                    // exit code 1, no cleanup
    | Crashed(failed: Command)                                                                 // the catch-all: exit code 1

  function ExitCode(o: MergeOutcome): int {
    if o.Merged? then 0 else 1
  }

  /** `<cwd>/.agent-logs/<feature>-status.json`, the status file the cleanup deletes. */
  function MergeStatusFile(cwd: Path, feature: string): Path {
    Join(Join(cwd, ".agent-logs"), feature + "-status.json")
  }

  /** The command printed for finishing a conflicted merge by hand. */
  function ContinueHint(feature: string): string {
    "   git merge " + BranchName(feature) + " --continue"
  }

  /** The cleanup after a successful merge: the worktree and branch, then the status file if it exists. */
  function CleanupSpec(st: Snapshot, cwd: Path, feature: string, warned: bool, ok: Command -> bool): (Snapshot, MergeOutcome) {
    var (removed, outcome) := RemoveSpec(st, cwd, feature, true, ok);
    var statusFile := MergeStatusFile(cwd, feature);
    if statusFile !in removed.fs then (removed, Merged(warned, Some(outcome), false))
    else if ok(RemoveFile(statusFile)) then (Run(removed, RemoveFile(statusFile), true), Merged(warned, Some(outcome), true))
    else (Run(removed, RemoveFile(statusFile), false), Crashed(RemoveFile(statusFile)))
  }

  /** The world once the branch has been checked and the merge attempted. */
  function AfterMerge(st: Snapshot, feature: string, ok: Command -> bool): Snapshot {
    var b := BranchName(feature);
    Run(Run(st, Log(b), ok(Log(b))), Merge(b), ok(Merge(b)))
  }

  /** `mergeCommand(feature, { cleanup })` run from `cwd`. */
  function MergeSpec(st: Snapshot, cwd: Path, feature: string, cleanup: bool, ok: Command -> bool): (Snapshot, MergeOutcome) {
    var b := BranchName(feature);
    var warned := !HasCommitsSpec(st, feature, ok);
    var merged := AfterMerge(st, feature, ok);
    if !ok(Merge(b)) then (merged, MergeFailed(warned, ContinueHint(feature)))
    else if !cleanup then (merged, Merged(warned, None, false))
    else CleanupSpec(merged, cwd, feature, warned, ok)
  }

  /** The command: check, merge, and clean up when asked. */
  method RunMerge(ws: Workspace, cwd: Path, feature: string, cleanup: bool, ok: Command -> bool) returns (outcome: MergeOutcome)
    modifies ws
    ensures (ws.Snap(), outcome) == MergeSpec(old(ws.Snap()), cwd, feature, cleanup, ok)
  {
    var ahead := ws.HasCommits(feature, ok);
    var success := ws.MergeFeature(feature, ok);
    if !success {
      return MergeFailed(!ahead, ContinueHint(feature));
    }
    if !cleanup {
      return Merged(!ahead, None, false);
    }
    var removal := ws.RemoveWorktree(cwd, feature, ok, true);
    var statusFile := MergeStatusFile(cwd, feature);
    if statusFile in ws.fs {
      var deleted := ws.Exec(RemoveFile(statusFile), ok);
      if !deleted {
        return Crashed(RemoveFile(statusFile));
      }
      return Merged(!ahead, Some(removal), true);
    }
    return Merged(!ahead, Some(removal), false);
  }

  // ---------------------------------------------------------------------
  // What the command promises
  // ---------------------------------------------------------------------

  /**
   * The branch is always checked and then merged, in that order, before
   * anything else; the warning is printed exactly when the branch has no
   * commits the current branch lacks.
   */
  lemma MergeAlwaysAttempted(st: Snapshot, cwd: Path, feature: string, cleanup: bool, ok: Command -> bool)
    ensures var (st1, outcome) := MergeSpec(st, cwd, feature, cleanup, ok);
      var b := BranchName(feature);
      && |st1.history| >= |st.history| + 2
      && st1.history[..|st.history| + 2] == st.history + [Log(b), Merge(b)]
      && (outcome.Merged? || outcome.MergeFailed? ==> outcome.noCommitsWarning == !HasCommitsSpec(st, feature, ok))
  {
    var b := BranchName(feature);
    var merged := Run(Run(st, Log(b), ok(Log(b))), Merge(b), ok(Merge(b)));
    assert merged.history == st.history + [Log(b), Merge(b)];
    if ok(Merge(b)) && cleanup {
      var (removed, _) := RemoveSpec(merged, cwd, feature, true, ok);
      RemovePreservesHistory(merged, cwd, feature, ok);
      var sf := MergeStatusFile(cwd, feature);
      if sf in removed.fs {
        var st1 := Run(removed, RemoveFile(sf), ok(RemoveFile(sf)));
        assert st1.history[..|merged.history|] == removed.history[..|merged.history|];
      }
    }
  }

  /** Removing a worktree only appends to the history. */
  lemma RemovePreservesHistory(st: Snapshot, cwd: Path, feature: string, ok: Command -> bool)
    ensures var st1 := RemoveSpec(st, cwd, feature, true, ok).0;
      |st1.history| >= |st.history| && st1.history[..|st.history|] == st.history
  {
    var wt := WorktreePath(cwd, feature);
    var st1 := RemoveSpec(st, cwd, feature, true, ok).0;
    var afterDir := RemoveDirSpec(st, wt, ok).0;
    assert |afterDir.history| >= |st.history| && afterDir.history[..|st.history|] == st.history;
    assert st1.history == afterDir.history + [BranchDelete(BranchName(feature))];
    assert st1.history[..|st.history|] == afterDir.history[..|st.history|];
  }

  /**
   * A failed merge exits with 1 and cleans nothing up: files, worktrees and
   * branches are as they were, and the guidance names the feature branch.
   */
  lemma FailedMergeKeepsEverything(st: Snapshot, cwd: Path, feature: string, cleanup: bool, ok: Command -> bool)
    ensures var (st1, outcome) := MergeSpec(st, cwd, feature, cleanup, ok);
      && (outcome.MergeFailed? <==> !ok(Merge(BranchName(feature))))
      && (outcome.MergeFailed? ==>
            && ExitCode(outcome) == 1
            && st1.fs == st.fs && st1.worktrees == st.worktrees && st1.branches == st.branches
            && st1.history == st.history + [Log(BranchName(feature)), Merge(BranchName(feature))]
            && outcome.guidance == "   git merge feat-" + feature + " --continue")
  {
  }

  /**
   * With `--no-cleanup`, a merge touches no file and no worktree, and changes
   * no branch but the current one: the feature branch stays as it was.
   */
  lemma NoCleanupKeepsFiles(st: Snapshot, cwd: Path, feature: string, ok: Command -> bool)
    ensures var (st1, outcome) := MergeSpec(st, cwd, feature, false, ok);
      && st1.fs == st.fs && st1.worktrees == st.worktrees && st1.head == st.head
      && (forall x :: x != st.head ==> (x in st1.branches <==> x in st.branches) && Commits(st1, x) == Commits(st, x))
      && (outcome.Merged? <==> ok(Merge(BranchName(feature))))
      && (outcome.Merged? ==> outcome.cleanup.None? && !outcome.statusFileRemoved)
  {
  }

  /** The status file lies outside the worktree, so removing the worktree never removes it. */
  lemma StatusFileOutsideWorktree(cwd: Path, feature: string)
    ensures !Within(WorktreePath(cwd, feature), MergeStatusFile(cwd, feature))
  {
    var wt := WorktreePath(cwd, feature);
    var sf := MergeStatusFile(cwd, feature);
    if cwd == [] {
      assert wt[0] == "-" + BranchName(feature) && wt[0][0] == '-';
      assert sf[0] == ".agent-logs" && sf[0][0] == '.';
    } else {
      assert |wt| == |cwd| < |sf|;
      assert sf[..|cwd|] == cwd;
      WorktreeIsNotProject(cwd, feature);
    }
  }

  /**
   * A merge that succeeds with cleanup reports the worktree removal's
   * outcome; after `Removed` or `ForceRemoved` nothing is left at or below
   * the worktree path and it is no longer registered; the feature branch is
   * gone when its deletion succeeds; and no status file is left, which was
   * deleted exactly when there was one.
   */
  lemma CleanupRemovesStatusFile(st: Snapshot, cwd: Path, feature: string, ok: Command -> bool)
    requires MergeSpec(st, cwd, feature, true, ok).1.Merged?
    ensures var (st1, outcome) := MergeSpec(st, cwd, feature, true, ok);
      var b := BranchName(feature);
      var wt := WorktreePath(cwd, feature);
      && MergeStatusFile(cwd, feature) !in st1.fs
      && (outcome.statusFileRemoved <==> MergeStatusFile(cwd, feature) in st.fs)
      && BranchDelete(b) in st1.history[|st.history|..]
      && outcome.cleanup == Some(RemoveSpec(AfterMerge(st, feature, ok), cwd, feature, true, ok).1)
      && (outcome.cleanup.value == NoWorktree <==> wt !in st.fs)
      && (outcome.cleanup.value == Removed || outcome.cleanup.value == ForceRemoved ==>
            (forall p :: p in st1.fs ==> !Within(wt, p)) && wt !in st1.worktrees)
      && (ok(BranchDelete(b)) ==> b !in st1.branches)
  {
    var b := BranchName(feature);
    var merged := AfterMerge(st, feature, ok);
    var warned := !HasCommitsSpec(st, feature, ok);
    assert |merged.history| == |st.history| + 2;
    assert merged.fs == st.fs;
    CleanupFacts(merged, cwd, feature, warned, ok);
    CleanupHistory(merged, cwd, feature, warned, ok);
    CleanupRemovesWorktree(merged, cwd, feature, warned, ok);
    var st1 := CleanupSpec(merged, cwd, feature, warned, ok).0;
    var k := |RemoveSpec(merged, cwd, feature, true, ok).0.history| - 1;
    assert st1.history[|st.history|..][k - |st.history|] == BranchDelete(b);
  }

  /**
   * After a successful merge with cleanup, a missing status file is not an
   * error: the command reports the merge with nothing deleted. A status file
   * that is there but cannot be deleted makes the command crash on it.
   */
  lemma StatusFileRemovalOutcome(st: Snapshot, cwd: Path, feature: string, ok: Command -> bool)
    requires ok(Merge(BranchName(feature)))
    ensures var outcome := MergeSpec(st, cwd, feature, true, ok).1;
      var sf := MergeStatusFile(cwd, feature);
      var removal := RemoveSpec(AfterMerge(st, feature, ok), cwd, feature, true, ok).1;
      var warned := !HasCommitsSpec(st, feature, ok);
      && (sf !in st.fs ==> outcome == Merged(warned, Some(removal), false))
      && (sf in st.fs && ok(RemoveFile(sf)) ==> outcome == Merged(warned, Some(removal), true))
      && (sf in st.fs && !ok(RemoveFile(sf)) ==> outcome == Crashed(RemoveFile(sf)))
  {
    var merged := AfterMerge(st, feature, ok);
    assert merged.fs == st.fs;
    RemoveWorktreeOutcome(merged, cwd, feature, true, ok);
    StatusFileOutsideWorktree(cwd, feature);
  }

  /** What a cleanup that does not crash leaves of the worktree, the branch and the status file. */
  lemma CleanupRemovesWorktree(st: Snapshot, cwd: Path, feature: string, warned: bool, ok: Command -> bool)
    requires CleanupSpec(st, cwd, feature, warned, ok).1.Merged?
    ensures var (st1, outcome) := CleanupSpec(st, cwd, feature, warned, ok);
      var removal := RemoveSpec(st, cwd, feature, true, ok).1;
      var b := BranchName(feature);
      var wt := WorktreePath(cwd, feature);
      && outcome.cleanup == Some(removal)
      && (outcome.statusFileRemoved <==> MergeStatusFile(cwd, feature) in st.fs)
      && (removal == NoWorktree <==> wt !in st.fs)
      && (removal == Removed || removal == ForceRemoved ==>
            (forall p :: p in st1.fs ==> !Within(wt, p)) && wt !in st1.worktrees)
      && (ok(BranchDelete(b)) ==> b !in st1.branches)
  {
    RemoveWorktreeOutcome(st, cwd, feature, true, ok);
    RemoveWorktreeBranch(st, cwd, feature, true, ok);
    StatusFileOutsideWorktree(cwd, feature);
  }

  /** A cleanup that does not crash deletes the status file and reports the worktree removal. */
  lemma CleanupFacts(st: Snapshot, cwd: Path, feature: string, warned: bool, ok: Command -> bool)
    requires CleanupSpec(st, cwd, feature, warned, ok).1.Merged?
    ensures var (st1, outcome) := CleanupSpec(st, cwd, feature, warned, ok);
      MergeStatusFile(cwd, feature) !in st1.fs && outcome.cleanup.Some?
  {
  }

  /** The cleanup's history extends that of the worktree removal, whose last command is the branch deletion. */
  lemma CleanupHistory(st: Snapshot, cwd: Path, feature: string, warned: bool, ok: Command -> bool)
    ensures var removed := RemoveSpec(st, cwd, feature, true, ok).0;
      var st1 := CleanupSpec(st, cwd, feature, warned, ok).0;
      && |st.history| < |removed.history| <= |st1.history|
      && st1.history[..|removed.history|] == removed.history
      && st1.history[|removed.history| - 1] == BranchDelete(BranchName(feature))
  {
    var removed := RemoveSpec(st, cwd, feature, true, ok).0;
    RemoveWorktreeBranch(st, cwd, feature, true, ok);
    RemovePreservesHistory(st, cwd, feature, ok);
    var sf := MergeStatusFile(cwd, feature);
    if sf in removed.fs {
      var st1 := Run(removed, RemoveFile(sf), ok(RemoveFile(sf)));
      assert st1.history == removed.history + [RemoveFile(sf)];
    }
  }

  /** The cleanup leaves the current branch, and its commits, alone (unless it is the feature branch itself). */
  lemma CleanupKeepsHead(st: Snapshot, cwd: Path, feature: string, warned: bool, ok: Command -> bool)
    requires st.head != BranchName(feature)
    ensures var st1 := CleanupSpec(st, cwd, feature, warned, ok).0;
      st1.head == st.head && Commits(st1, st.head) == Commits(st, st.head)
  {
    RemoveKeepsHead(st, cwd, feature, true, ok);
  }

  /**
   * When the merge goes into another branch, the current branch ends with
   * every commit of the feature branch, whatever the cleanup does afterwards.
   */
  lemma MergedCommitsReachHead(st: Snapshot, cwd: Path, feature: string, cleanup: bool, ok: Command -> bool)
    requires st.head != BranchName(feature)
    requires MergeSpec(st, cwd, feature, cleanup, ok).1.Merged?
    ensures var st1 := MergeSpec(st, cwd, feature, cleanup, ok).0;
      st1.head == st.head && Commits(st, BranchName(feature)) <= Commits(st1, st1.head)
  {
    var b := BranchName(feature);
    var checked := Run(st, Log(b), ok(Log(b)));
    assert checked.branches == st.branches && checked.head == st.head;
    var merged := Run(checked, Merge(b), true);
    assert Commits(st, b) <= Commits(merged, merged.head);
    if cleanup {
      CleanupKeepsHead(merged, cwd, feature, !HasCommitsSpec(st, feature, ok), ok);
    }
  }
}
