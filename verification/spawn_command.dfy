/**
 * `vibecode spawn <agent> "<task>" [--worktree <name>] [--mode <mode>] [--terminal]`:
 * loads the agent, builds its prompt, optionally creates a worktree for the
 * feature, and launches the agent there. Any error ends the command with exit
 * code 1.
 */
module SpawnCommand {
  import opened Wrappers
  import opened Paths
  import opened Shell
  import opened Worktree
  import opened Agents
  import opened Launcher

  datatype SpawnFlags = SpawnFlags(worktree: Option<string>, mode: ApprovalMode, terminal: bool)

  datatype SpawnError = AgentError(error: LoadError) | CommandFailed(command: Command)

  /** How the command ends: the agent spawned (with the merge hint to print, if any), or an error. */
  datatype SpawnOutcome = Spawned(mergeHint: Option<string>) | Exited(error: SpawnError)

  function ExitCode(o: SpawnOutcome): int {
    if o.Spawned? then 0 else 1
  }

  /** The follow-up command printed after spawning into a worktree. */
  function MergeHint(feature: string): string {
    "  vibecode merge " + feature
  }

  /** `if (options.worktree)`: given and non-empty. */
  predicate WantsWorktree(flags: SpawnFlags) {
    flags.worktree.Some? && flags.worktree.value != ""
  }

  /** Everything the command reads besides the workspace: where it runs, and the outside world's answers. */
  datatype Context = Context(cwd: Path, moduleDir: Path, parse: string -> Result<Yaml, string>, readError: Path -> string,
                             clock: Clock, temp: Option<Path>)

  /** The launcher options `spawnCommand` passes for a worktree descriptor (or none). */
  function LaunchOptions(cwd: Path, flags: SpawnFlags, created: Option<WorktreeInfo>): (opts: SpawnOptions)
    ensures opts.approvalMode == flags.mode && opts.useTerminal == flags.terminal
    ensures created.Some? ==> opts.workDir == created.value.path && opts.featureName == Some(created.value.feature)
    ensures created.None? ==> opts.workDir == cwd && opts.featureName == flags.worktree
  {
    if created.Some? then SpawnOptions(created.value.path, flags.mode, flags.terminal, Some(created.value.feature))
    else SpawnOptions(cwd, flags.mode, flags.terminal, flags.worktree)
  }

  /** The launch of `script`, once the agent is loaded and the worktree (if any) is ready; `hint` is printed on success. */
  function LaunchStep(st: Snapshot, ctx: Context, script: string, opts: SpawnOptions, hint: Option<string>,
                      ok: Command -> bool): (Snapshot, SpawnOutcome)
  {
    var (st1, launched) := LaunchSpec(st, ctx.cwd, opts, ctx.clock, ctx.temp, script, ok);
    if launched.Failure? then (st1, Exited(CommandFailed(launched.error)))
    else (st1, Spawned(hint))
  }

  /** The agent's prompt for the task, or why the agent could not be loaded. */
  function AgentPrompt(fs: map<Path, Node>, ctx: Context, slug: string, task: string): (r: Result<string, LoadError>)
    ensures r.Failure? <==> LoadAgent(fs, ctx.cwd, ctx.moduleDir, slug, ctx.parse, ctx.readError).Failure?
  {
    var agent := LoadAgent(fs, ctx.cwd, ctx.moduleDir, slug, ctx.parse, ctx.readError);
    if agent.Failure? then Failure(agent.error) else Success(BuildAgentPrompt(agent.value, task))
  }

  /** `spawnCommand(agentSlug, task, options)` */
  function SpawnSpec(st: Snapshot, ctx: Context, slug: string, task: string, flags: SpawnFlags, ok: Command -> bool)
    : (Snapshot, SpawnOutcome)
  {
    var prompt := AgentPrompt(st.fs, ctx, slug, task);
    if prompt.Failure? then (st, Exited(AgentError(prompt.error)))
    else
      if !WantsWorktree(flags) then
        var opts := LaunchOptions(ctx.cwd, flags, None);
        LaunchStep(st, ctx, ScriptFor(ctx.cwd, prompt.value, opts, ctx.clock), opts, None, ok)
      else
        var (st1, created) := CreateSpec(st, ctx.cwd, flags.worktree.value, ok);
        if created.Failure? then (st1, Exited(CommandFailed(created.error)))
        else
          var opts := LaunchOptions(ctx.cwd, flags, Some(created.value));
          LaunchStep(st1, ctx, ScriptFor(ctx.cwd, prompt.value, opts, ctx.clock), opts, Some(MergeHint(flags.worktree.value)), ok)
  }

  /** The command: load, build the prompt, choose the work directory, launch. */
  method Spawn(ws: Workspace, ctx: Context, slug: string, task: string, flags: SpawnFlags, ok: Command -> bool)
    returns (outcome: SpawnOutcome)
    modifies ws
    ensures (ws.Snap(), outcome) == SpawnSpec(old(ws.Snap()), ctx, slug, task, flags, ok)
  {
    var agent := LoadAgent(ws.fs, ctx.cwd, ctx.moduleDir, slug, ctx.parse, ctx.readError);
    if agent.Failure? {
      return Exited(AgentError(agent.error));
    }
    var prompt := BuildAgentPrompt(agent.value, task);
    assert AgentPrompt(ws.fs, ctx, slug, task) == Success(prompt);
    var workDir := ctx.cwd;
    var featureName := flags.worktree;
    var created: Option<WorktreeInfo> := None;
    if WantsWorktree(flags) {
      var worktree := ws.CreateWorktree(ctx.cwd, flags.worktree.value, ok);
      if worktree.Failure? {
        return Exited(CommandFailed(worktree.error));
      }
      workDir := worktree.value.path;
      featureName := Some(worktree.value.feature);
      created := Some(worktree.value);
    }
    var opts := SpawnOptions(workDir, flags.mode, flags.terminal, featureName);
    assert opts == LaunchOptions(ctx.cwd, flags, created);
    var launched := SpawnGeminiAgent(ws, ctx.cwd, prompt, opts, ctx.clock, ctx.temp, ok);
    if launched.Failure? {
      return Exited(CommandFailed(launched.error));
    }
    return Spawned(if WantsWorktree(flags) then Some(MergeHint(flags.worktree.value)) else None);
  }

  // ---------------------------------------------------------------------
  // What the command promises
  // ---------------------------------------------------------------------

  /** The agent is loaded first: when it cannot be, nothing at all is done, and the exit code is 1. */
  lemma MissingAgentChangesNothing(st: Snapshot, ctx: Context, slug: string, task: string, flags: SpawnFlags, ok: Command -> bool)
    requires LoadAgent(st.fs, ctx.cwd, ctx.moduleDir, slug, ctx.parse, ctx.readError).Failure?
    ensures SpawnSpec(st, ctx, slug, task, flags, ok).0 == st
    ensures ExitCode(SpawnSpec(st, ctx, slug, task, flags, ok).1) == 1
  {
  }

  /** `after` is `before` with one more process, started in `workDir`, in a terminal tab exactly when `terminal`. */
  predicate StartedOne(before: seq<Launch>, after: seq<Launch>, workDir: Path, terminal: bool) {
    && |after| == |before| + 1 && after[..|before|] == before
    && after[|before|].workDir == workDir && (after[|before|].TerminalTab? <==> terminal)
  }

  /** The status file of `agent` holds its `running` record and the script file holds `script`. */
  predicate RecordsWritten(fs: map<Path, Node>, ctx: Context, agent: string, script: string) {
    && StatusFilePath(ctx.cwd, agent) in fs && fs[StatusFilePath(ctx.cwd, agent)] == File(InitialStatusJson(ctx.clock.startedIso, agent))
    && ScriptPath(ctx.temp, ctx.clock.nowMs) in fs && fs[ScriptPath(ctx.temp, ctx.clock.nowMs)] == File(script)
  }

  /**
   * A successful launch step starts exactly one process, as the options ask,
   * records the agent as running and writes its script; worktrees and
   * branches are left alone.
   */
  lemma LaunchStepFacts(st: Snapshot, ctx: Context, script: string, opts: SpawnOptions, hint: Option<string>, ok: Command -> bool)
    requires LaunchStep(st, ctx, script, opts, hint, ok).1.Spawned?
    ensures var (st1, outcome) := LaunchStep(st, ctx, script, opts, hint, ok);
      && outcome.mergeHint == hint
      && st1.worktrees == st.worktrees && st1.branches == st.branches
      && StartedOne(st.processes, st1.processes, opts.workDir, opts.useTerminal)
      && st1.processes[|st.processes|].script == ScriptPath(ctx.temp, ctx.clock.nowMs)
      && RecordsWritten(st1.fs, ctx, AgentName(opts.featureName), script)
  {
    StatusFileIsNotScript(ctx.cwd, AgentName(opts.featureName), ctx.temp, ctx.clock.nowMs);
    LaunchStartsOne(st, ctx.cwd, opts, ctx.clock, ctx.temp, script, ok);
    LaunchWritesRunningRecord(st, ctx.cwd, opts, ctx.clock, ctx.temp, script, ok);
    var st1 := LaunchSpec(st, ctx.cwd, opts, ctx.clock, ctx.temp, script, ok).0;
    assert st1.processes[..|st.processes|] == st.processes;
  }

  /**
   * A successful spawn without `--worktree` launches exactly one process, in
   * the project directory, in a terminal tab exactly when asked; the script
   * carries the agent's prompt and the mode; its status is recorded under the
   * name "agent"; no worktree or branch is touched.
   */
  lemma SpawnInProject(st: Snapshot, ctx: Context, slug: string, task: string, flags: SpawnFlags, ok: Command -> bool)
    requires !WantsWorktree(flags)
    requires SpawnSpec(st, ctx, slug, task, flags, ok).1.Spawned?
    ensures var (st1, outcome) := SpawnSpec(st, ctx, slug, task, flags, ok);
      var opts := SpawnOptions(ctx.cwd, flags.mode, flags.terminal, flags.worktree);
      && outcome.mergeHint.None?
      && st1.worktrees == st.worktrees && st1.branches == st.branches
      && StartedOne(st.processes, st1.processes, ctx.cwd, flags.terminal)
      && RecordsWritten(st1.fs, ctx, "agent", ScriptFor(ctx.cwd, AgentPrompt(st.fs, ctx, slug, task).value, opts, ctx.clock))
  {
    var prompt := AgentPrompt(st.fs, ctx, slug, task).value;
    var opts := LaunchOptions(ctx.cwd, flags, None);
    LaunchStepFacts(st, ctx, ScriptFor(ctx.cwd, prompt, opts, ctx.clock), opts, None, ok);
  }

  /**
   * A successful spawn with `--worktree f` launches exactly one process, in
   * the worktree of `f`, in a terminal tab exactly when asked; its status is
   * recorded in the project's log directory under `f`; the merge hint names
   * `f`.
   */
  lemma SpawnInWorktree(st: Snapshot, ctx: Context, slug: string, task: string, flags: SpawnFlags, ok: Command -> bool)
    requires WantsWorktree(flags)
    requires SpawnSpec(st, ctx, slug, task, flags, ok).1.Spawned?
    ensures var (st1, outcome) := SpawnSpec(st, ctx, slug, task, flags, ok);
      var f := flags.worktree.value;
      var opts := SpawnOptions(WorktreePath(ctx.cwd, f), flags.mode, flags.terminal, Some(f));
      && outcome.mergeHint == Some(MergeHint(f))
      && StartedOne(st.processes, st1.processes, WorktreePath(ctx.cwd, f), flags.terminal)
      && RecordsWritten(st1.fs, ctx, f, ScriptFor(ctx.cwd, AgentPrompt(st.fs, ctx, slug, task).value, opts, ctx.clock))
  {
    var f := flags.worktree.value;
    var prompt := AgentPrompt(st.fs, ctx, slug, task).value;
    var (st0, created) := CreateSpec(st, ctx.cwd, f, ok);
    CreateKeepsProcesses(st, ctx.cwd, f, ok);
    assert created.Success?;
    assert created.value == Info(ctx.cwd, f);
    var opts := LaunchOptions(ctx.cwd, flags, Some(created.value));
    LaunchStepFacts(st0, ctx, ScriptFor(ctx.cwd, prompt, opts, ctx.clock), opts, Some(MergeHint(f)), ok);
  }

  /**
   * The command exits with 0 only when the agent was loaded and, with
   * `--worktree`, the worktree was created (or already existed).
   */
  lemma SuccessNeedsEveryStep(st: Snapshot, ctx: Context, slug: string, task: string, flags: SpawnFlags, ok: Command -> bool)
    requires ExitCode(SpawnSpec(st, ctx, slug, task, flags, ok).1) == 0
    ensures LoadAgent(st.fs, ctx.cwd, ctx.moduleDir, slug, ctx.parse, ctx.readError).Success?
    ensures WantsWorktree(flags) ==> CreateSpec(st, ctx.cwd, flags.worktree.value, ok).1.Success?
  {
  }
}
