/**
 * How the commands meet through the status files: `spawn` writes
 * `<cwd>/.agent-logs/<agent>-status.json`, the status store reads every file of
 * that directory ending in `-status.json` and names the agent by stripping the
 * suffix, and `merge --cleanup` deletes the feature's file. The three modules
 * compute the path each in their own way; this module proves they agree.
 */
module Lifecycle {
  import opened Wrappers
  import opened Text
  import opened Paths
  import opened Shell
  import Launcher
  import StatusStore
  import MergeCommand
  import SpawnCommand

  /** The record a status parser gives for the JSON the launcher writes first. */
  function RunningRecord(started: string, agent: string): StatusStore.AgentStatus {
    StatusStore.AgentStatus("running", Some(started), None, agent, None)
  }

  /**
   * For a feature `f`, the launcher, the status store and the merge command
   * name the same file, and that file is a status file.
   */
  lemma StatusPathsAgree(cwd: Path, f: string)
    requires f != ""
    ensures Launcher.StatusFilePath(cwd, Launcher.AgentName(Some(f))) == Join(StatusStore.LogsDir(cwd), f + StatusStore.StatusSuffix)
    ensures MergeCommand.MergeStatusFile(cwd, f) == Join(StatusStore.LogsDir(cwd), f + StatusStore.StatusSuffix)
    ensures EndsWith(f + StatusStore.StatusSuffix, StatusStore.StatusSuffix)
  {
    assert (f + StatusStore.StatusSuffix)[|f|..] == StatusStore.StatusSuffix;
  }

  /** Without a feature, the launcher's file is `agent-status.json`, and the store names it "agent". */
  lemma DefaultStatusPath(cwd: Path)
    ensures Launcher.StatusFilePath(cwd, Launcher.AgentName(None)) == Join(StatusStore.LogsDir(cwd), "agent" + StatusStore.StatusSuffix)
    ensures StatusStore.AgentNameOf("agent" + StatusStore.StatusSuffix) == "agent"
  {
    StatusStore.AgentNameRoundTrip("agent");
  }

  /**
   * Right after a successful `spawn --worktree f`, the status store reads the
   * feature's file as a `running` record for `f` (given a parser that reads
   * the launcher's JSON back faithfully), and names the agent `f`.
   */
  lemma SpawnedFeatureShowsRunning(st: Snapshot, ctx: SpawnCommand.Context, slug: string, task: string,
                                   flags: SpawnCommand.SpawnFlags, ok: Command -> bool,
                                   parse: string -> Result<StatusStore.StatusValue, string>, readError: Path -> string)
    requires SpawnCommand.WantsWorktree(flags) && !Contains(flags.worktree.value, StatusStore.StatusSuffix)
    requires SpawnCommand.SpawnSpec(st, ctx, slug, task, flags, ok).1.Spawned?
    requires var f := flags.worktree.value;
      parse(Launcher.InitialStatusJson(ctx.clock.startedIso, f)) == Success(StatusStore.Record(RunningRecord(ctx.clock.startedIso, f)))
    ensures var st1 := SpawnCommand.SpawnSpec(st, ctx, slug, task, flags, ok).0;
      var f := flags.worktree.value;
      && StatusStore.ReadStatus(st1.fs, StatusStore.LogsDir(ctx.cwd), f + StatusStore.StatusSuffix, parse, readError)
           == StatusStore.Record(RunningRecord(ctx.clock.startedIso, f))
      && StatusStore.AgentNameOf(f + StatusStore.StatusSuffix) == f
  {
    SpawnCommand.SpawnInWorktree(st, ctx, slug, task, flags, ok);
    StatusPathsAgree(ctx.cwd, flags.worktree.value);
    StatusStore.AgentNameRoundTrip(flags.worktree.value);
  }

  /**
   * After `merge f` succeeds with cleanup, the feature's status file is gone,
   * so a listing of the logs directory taken afterwards has no status file
   * for `f` and the store reads no record from it.
   */
  lemma MergedFeatureLeavesNoRecord(st: Snapshot, cwd: Path, f: string, ok: Command -> bool, listing: seq<string>)
    requires f != ""
    requires MergeCommand.MergeSpec(st, cwd, f, true, ok).1.Merged?
    requires forall n :: n in listing ==> Join(StatusStore.LogsDir(cwd), n) in MergeCommand.MergeSpec(st, cwd, f, true, ok).0.fs
    ensures var st1 := MergeCommand.MergeSpec(st, cwd, f, true, ok).0;
      && Join(StatusStore.LogsDir(cwd), f + StatusStore.StatusSuffix) !in st1.fs
      && f + StatusStore.StatusSuffix !in StatusStore.StatusFiles(listing)
  {
    MergeCommand.CleanupRemovesStatusFile(st, cwd, f, ok);
    StatusPathsAgree(cwd, f);
  }
}
