# VibeCode orchestration and Pomodoro timer core, in Dafny

This project models two programs from one repository.

**The VibeCode command-line tool** runs AI coding agents in parallel git worktrees:

- `spawn` loads an agent's YAML configuration and builds its prompt. With `--worktree <feature>` it also creates a worktree on branch `feat-<feature>` next to the project directory, copying the allow-listed `.env*` files and the `prisma` directory. It then writes a `running` status record and a PowerShell script, and starts the script detached.
- The status store lists `.agent-logs/*-status.json`, turns unreadable or malformed files into `error` records, renders the records with summary counts, and polls until no agent is running. A file that parses to `null` is kept as a `null` entry, on which the display and the poll throw (see "## Findings").
- `merge` warns when the feature branch has no new commits, merges it, and by default removes the worktree, the branch and the status file.

**The Pomodoro timer** has these parts: its reducer, the once-a-second tick and the condition for scheduling it, and its formatting and conversion helpers. As the hook schedules the tick, a running session stops at 00:00 and is never completed; the model proves both this and what the evidently intended schedule does (see "## Findings").

How the model is built:

- The outside world is an explicit value, `Shell.Snapshot`. It holds:
  - the filesystem, as a map from segment-sequence paths to nodes;
  - the branches, as the sets of commits reachable from them, and the checked-out branch;
  - the registered worktrees and the processes started;
  - the history of every command attempted.
- Whether a command (`execSync`, `copyFileSync`, `writeFileSync`, `rmSync`, ...) succeeds is decided by an oracle `ok: Command -> bool`. A command that fails has no effect besides being recorded.
- The code that changes this world step by step is imperative Dafny:
  - the class `Worktree.Workspace` holds the world as fields;
  - its methods and the command methods (`SpawnCommand.Spawn`, `MergeCommand.RunMerge`, `Launcher.SpawnGeminiAgent`) have `modifies` clauses;
  - each is proved equal to a specification function over snapshots (`CreateSpec`, `RemoveSpec`, `LaunchSpec`, `SpawnSpec`, `MergeSpec`);
  - the promises of the source are lemmas about those functions.
- The loops that only compute a value are methods with loop invariants, proved against a function:
  - the status listing (`GetAgentStatuses`);
  - the agent listing (`ListAgents`);
  - the poll loop (`WaitForCompletion`).
- The timer reducer, the tick and the helpers are pure functions and lemmas.

Inputs the model takes instead of the world's behaviour:

- the YAML and JSON parsers (`parse`) and the text of read errors (`readError`);
- directory listings, in `readdirSync` order;
- every clock reading (`Launcher.Clock`), the `TEMP` variable and the locale time string;
- the successive observations of the poll loop.

Where the system's own description and the code disagree, the model follows the code:

- A config-file or prisma copy that throws makes `createWorktree` throw, so `spawn` exits with 1. It is not a non-fatal failure.
- Starting the detached process never fails synchronously: Node reports `spawn` errors asynchronously. The launcher's synchronous failures are the directory creation and the two file writes.
- Status files are written in place (`writeFileSync`), not by write-then-rename.

## Model

Source paths are relative to the repository root.

| member | source | states |
|---|---|---|
| Worktree.WorktreePathInjective | packages/vibecode-cli/src/lib/worktree.ts:16-19 | Two features with the same worktree path are the same feature, so each feature's worktree location can be re-derived without any lookup. |
| Worktree.WorktreeIsNotProject | packages/vibecode-cli/src/lib/worktree.ts:17-19 | The worktree path is never the project directory itself. |
| Worktree.ProjectEntryOutsideWorktree | packages/vibecode-cli/src/lib/worktree.ts:38-49 | A project entry whose name does not start with '-' (every allow-listed file, `prisma`) is neither the worktree nor anything directly inside it. |
| Worktree.CopyPlanContents | packages/vibecode-cli/src/lib/worktree.ts:38-44 | The copy plan copies exactly the allow-listed files present in the project, each to the same name in the worktree, and nothing else. |
| Worktree.CopyConfigsFrame | packages/vibecode-cli/src/lib/worktree.ts:38-44 | The copy loop changes no branch, worktree registration or process. It keeps every existing path, only appends to the history, and leaves an earlier failure as it is. |
| Worktree.CopyPlanDependsOnProject | packages/vibecode-cli/src/lib/worktree.ts:39-41 | The plan depends only on which allow-listed project files exist. |
| Worktree.CopyStep | packages/vibecode-cli/src/lib/worktree.ts:40-41 | A missing project file is skipped. A present one is copied (recorded, and applied when it succeeds). |
| Worktree.CopyConfigsUnfold | packages/vibecode-cli/src/lib/worktree.ts:39-44 | One iteration of the copy loop is one `CopyStep` followed by the rest of the loop. |
| Worktree.CopyStepKeepsPlan | packages/vibecode-cli/src/lib/worktree.ts:39-44 | A copy into the worktree never changes which project files the rest of the loop finds. |
| Worktree.CopyConfigsFollowsPlan | packages/vibecode-cli/src/lib/worktree.ts:38-44 | A copy loop that does not throw runs exactly the plan's commands, in allow-list order. |
| Worktree.PrepareFacts | packages/vibecode-cli/src/lib/worktree.ts:27-35 | On success, the commands run are: list the branch, create it only if it was absent, add the worktree. The new branch starts at HEAD's commits, and the worktree is registered and exists. An existing branch is never recreated or changed, and a failure is the last command run. |
| Worktree.CopyPrismaFacts | packages/vibecode-cli/src/lib/worktree.ts:47-51 | The prisma directory is copied exactly when the project has it. The copy changes no branch, worktree or process, and adds only one `CopyDir`. |
| Worktree.CreateFreshSuccess | packages/vibecode-cli/src/lib/worktree.ts:14-54 | A fresh creation that returns ran, in order: branch list, branch create (only if absent), worktree add, one copy per present allow-listed file, then prisma if present. The worktree exists and is registered, and the only branch change is the new branch. |
| Worktree.CopiesStayInWorktree | packages/vibecode-cli/src/lib/worktree.ts:39-44 | The copy loop leaves every path that is not an allow-listed name inside the worktree untouched. |
| Worktree.CreateTwice | packages/vibecode-cli/src/lib/worktree.ts:21-24 | Idempotence: after a call that returned a descriptor, a second call returns the same descriptor and changes nothing, whatever its commands would do. |
| Worktree.FreshKeepsBranch | packages/vibecode-cli/src/lib/worktree.ts:27-31 | When the branch already exists, a fresh creation leaves all branches as they were and never attempts to create it. |
| Worktree.CreateKeepsExistingBranch | packages/vibecode-cli/src/lib/worktree.ts:21-31 | An existing branch is reused untouched, whether or not the call succeeds. |
| Worktree.CopyConfigsOnlyCopies | packages/vibecode-cli/src/lib/worktree.ts:39-44 | Every command the copy loop adds to the history is a file copy. |
| Worktree.CreateFreshConsistent | packages/vibecode-cli/src/lib/worktree.ts:26-53 | A fresh creation runs at least one command, and a failure it reports is the last command run, which failed. |
| Worktree.CreateKeepsProcesses | packages/vibecode-cli/src/lib/worktree.ts:14-54 | Creating a worktree starts no process. |
| Worktree.CreateFailurePropagates | packages/vibecode-cli/src/lib/worktree.ts:27-51 | Errors propagate uncaught: the error returned is the last command run, and that command failed. |
| Worktree.RemoveWorktreeOutcome | packages/vibecode-cli/src/lib/worktree.ts:66-80 | A missing path is left alone. Otherwise `git worktree remove` is tried, then folder deletion plus prune; the outcome says which worked. On success nothing at or below the path remains and it is unregistered. No filesystem entry outside the path changes, and nothing is created or registered. Every other registered worktree whose directory exists outside this one stays registered; prune may drop registrations whose directories are already gone. |
| Worktree.RemoveKeepsHead | packages/vibecode-cli/src/lib/worktree.ts:59-90 | Removal never switches the current branch or changes any branch other than the feature branch. |
| Worktree.RemoveWorktreeBranch | packages/vibecode-cli/src/lib/worktree.ts:82-89 | With `deleteBranch`, a forced delete is the last command attempted; the branch is gone if it succeeded, and all branches are unchanged if it failed (the failure is swallowed). Without `deleteBranch`, branches are untouched. |
| Worktree.NoCommitsOnSameTip | packages/vibecode-cli/src/lib/worktree.ts:112-121 | A branch whose commits HEAD already has reports no commits ahead. |
| Worktree.OneUniqueCommit | packages/vibecode-cli/src/lib/worktree.ts:112-121 | A branch with a commit HEAD lacks reports commits ahead, provided `git log` works. |
| Worktree.MergeClearsPending | packages/vibecode-cli/src/lib/worktree.ts:95-121 | After a successful merge the feature branch has no commits ahead of HEAD. |
| Worktree.Workspace.CreateWorktree | packages/vibecode-cli/src/lib/worktree.ts:14-54 | The new state and the descriptor (or the command that threw) are those of `CreateSpec`, which the lemmas above characterise. |
| Worktree.Workspace.AddWorktree | packages/vibecode-cli/src/lib/worktree.ts:27-35 | The branch and worktree steps, equal to `Prepare`. |
| Worktree.Workspace.CopyConfigFiles | packages/vibecode-cli/src/lib/worktree.ts:38-44 | The loop over the allow-list equals `CopyConfigs`; its invariant is that the loop's result equals the function on the remaining names. |
| Worktree.Workspace.CopyPrismaDir | packages/vibecode-cli/src/lib/worktree.ts:47-51 | The prisma copy, equal to `CopyPrisma`. |
| Worktree.Workspace.RemoveWorktree | packages/vibecode-cli/src/lib/worktree.ts:59-90 | Never throws. The new state and outcome are those of `RemoveSpec`. |
| Worktree.Workspace.MergeFeature | packages/vibecode-cli/src/lib/worktree.ts:95-107 | Returns true exactly when the merge succeeds, and never throws. |
| Worktree.Workspace.HasCommits | packages/vibecode-cli/src/lib/worktree.ts:112-121 | True exactly when `git log` works and the branch has commits HEAD lacks. A failure gives false. |
| Worktree.Workspace.Exec | packages/vibecode-cli/src/lib/worktree.ts:30 | A command is recorded, and takes effect exactly when it succeeds. |
| MergeCommand.RunMerge | packages/vibecode-cli/src/commands/merge.ts:13-61 | The new state and the outcome are those of `MergeSpec`. |
| MergeCommand.MergeAlwaysAttempted | packages/vibecode-cli/src/commands/merge.ts:22-28 | The branch is always checked and then merged, before anything else. The warning is printed exactly when the branch has no commits ahead. |
| MergeCommand.RemovePreservesHistory | packages/vibecode-cli/src/commands/merge.ts:41 | The cleanup's worktree removal only appends to the history. |
| MergeCommand.FailedMergeKeepsEverything | packages/vibecode-cli/src/commands/merge.ts:30-36 | The merge fails exactly when `git merge` does. It then exits with 1, touches no file, worktree or branch, runs nothing after the merge, and prints `git merge feat-<feature> --continue`. |
| MergeCommand.NoCleanupKeepsFiles | packages/vibecode-cli/src/commands/merge.ts:39 | With `--no-cleanup`, a successful merge touches no file and no worktree, and reports no cleanup. The head stays checked out, and every other branch (the feature branch among them, unless it is the head) keeps its presence and its commits. |
| MergeCommand.StatusFileOutsideWorktree | packages/vibecode-cli/src/commands/merge.ts:41-44 | The status file under `.agent-logs` is never at or below the worktree path, so removing the worktree never removes it. |
| MergeCommand.CleanupRemovesStatusFile | packages/vibecode-cli/src/commands/merge.ts:39-49 | After a successful merge with cleanup: the reported cleanup is the outcome of `removeWorktree(feature, true)` on the merged state, and it is `NoWorktree` exactly when the worktree path did not exist. After `Removed` or `ForceRemoved`, no path at or below the worktree path is left and the worktree is no longer registered. The feature branch is gone when its deletion succeeds, and deleting it was attempted in any case. No status file is left, and the command reports removing it exactly when one existed. |
| MergeCommand.CleanupRemovesWorktree | packages/vibecode-cli/src/commands/merge.ts:41-48 | The same facts for a cleanup that does not crash, stated about the state it starts from. |
| MergeCommand.StatusFileRemovalOutcome | packages/vibecode-cli/src/commands/merge.ts:44-48 | After a successful merge with cleanup, a missing status file is not an error: the command reports the merge with no status file removed. A present status file that is deleted is reported as removed, and one whose deletion throws makes the command crash on that `rmSync`. |
| MergeCommand.CleanupFacts | packages/vibecode-cli/src/commands/merge.ts:41-48 | A cleanup that does not crash leaves no status file and reports the removal. |
| MergeCommand.CleanupHistory | packages/vibecode-cli/src/commands/merge.ts:41-48 | The cleanup's history has the removal's history as a prefix, and the removal's last command is the branch deletion. |
| MergeCommand.CleanupKeepsHead | packages/vibecode-cli/src/commands/merge.ts:39-49 | The cleanup leaves the current branch and its commits alone (unless it is the feature branch). |
| MergeCommand.MergedCommitsReachHead | packages/vibecode-cli/src/commands/merge.ts:28-49 | After a successful merge into another branch, that branch holds every commit of the feature branch, whatever the cleanup does. |
| SpawnCommand.LaunchOptions | packages/vibecode-cli/src/commands/spawn.ts:35-52 | The launcher is told the mode and terminal flag as given. It gets the worktree's path and feature when one was created, and the project directory and the raw flag otherwise. |
| SpawnCommand.AgentPrompt | packages/vibecode-cli/src/commands/spawn.ts:27-31 | The prompt exists exactly when the agent loads. |
| SpawnCommand.Spawn | packages/vibecode-cli/src/commands/spawn.ts:15-73 | The new state and the outcome are those of `SpawnSpec`. |
| SpawnCommand.MissingAgentChangesNothing | packages/vibecode-cli/src/commands/spawn.ts:27 | When the agent cannot be loaded, nothing is done and the exit code is 1. |
| SpawnCommand.LaunchStepFacts | packages/vibecode-cli/src/commands/spawn.ts:47-65 | A successful launch starts exactly one process as the options ask and writes the `running` record and the script. It leaves worktrees and branches alone and prints the given hint. |
| SpawnCommand.SpawnInProject | packages/vibecode-cli/src/commands/spawn.ts:35-59 | A successful spawn without `--worktree` starts one process in the project directory (a terminal tab exactly when asked), running a script with the agent's prompt. Its status is recorded as "agent". No worktree or branch changes, and there is no merge hint. |
| SpawnCommand.SpawnInWorktree | packages/vibecode-cli/src/commands/spawn.ts:38-65 | A successful spawn with `--worktree f` starts one process in f's worktree and records its status under `f` in the project's logs. It prints `vibecode merge f`. |
| SpawnCommand.SuccessNeedsEveryStep | packages/vibecode-cli/src/commands/spawn.ts:24-72 | Exit code 0 only when the agent loaded and, with `--worktree`, the worktree was created or already existed. |
| Launcher.AgentName | packages/vibecode-cli/src/lib/gemini.ts:25 | The agent name is the feature name when given and non-empty, else "agent", and is never empty. |
| Launcher.ReplaceSeparators | packages/vibecode-cli/src/lib/gemini.ts:26 | Same length; every ':' and '.' becomes '-', and nothing else changes. |
| Launcher.TimestampSlug | packages/vibecode-cli/src/lib/gemini.ts:26 | At most 19 characters, with no ':' or '.'. Each character is the ISO time's character with separators replaced. |
| Launcher.StatusFileIsNotScript | packages/vibecode-cli/src/lib/gemini.ts:28-42 | The status file and the temporary script are never the same file. |
| Launcher.EscapePrompt | packages/vibecode-cli/src/lib/gemini.ts:39 | Every quote is doubled: the length grows by the number of quotes, and with quotes removed the text is unchanged. |
| Launcher.EscapeRoundTrip | packages/vibecode-cli/src/lib/gemini.ts:39 | Collapsing doubled quotes gives back the original prompt. |
| Launcher.PlainJsonText | packages/vibecode-cli/src/lib/gemini.ts:36 | `JSON.stringify` writes a string without quotes, backslashes or control characters unchanged. |
| Launcher.SpawnGeminiAgent | packages/vibecode-cli/src/lib/gemini.ts:15-103 | The new state and result are `LaunchSpec` of the script rendered for the prompt. |
| Launcher.RunLaunch | packages/vibecode-cli/src/lib/gemini.ts:20-98 | The launcher's effects in order (logs directory if missing, status record, script, process) equal `LaunchSpec`. |
| Launcher.ThenFileCommand | packages/vibecode-cli/src/lib/gemini.ts:22-76 | A directory creation or file write touches no branch, worktree or process, and is skipped after an earlier failure. |
| Launcher.LaunchStages | packages/vibecode-cli/src/lib/gemini.ts:20-76 | The logs directory is created only if missing. A thrown step stops everything after it, and each later step runs exactly when all earlier ones succeeded. |
| Launcher.LaunchFollowsPlan | packages/vibecode-cli/src/lib/gemini.ts:20-76 | The launcher runs a prefix of its plan (directory if missing, status record, script) and stops at the first command that throws, which it reports. |
| Launcher.LaunchSucceedsIff | packages/vibecode-cli/src/lib/gemini.ts:20-103 | A launch succeeds exactly when every planned command does. |
| Launcher.LaunchStartsOne | packages/vibecode-cli/src/lib/gemini.ts:78-102 | Only a fully successful launch starts a process, and then exactly one: a terminal tab exactly when asked, in the work directory, running the script just written. Branches and worktrees never change. |
| Launcher.LaunchWritesRunningRecord | packages/vibecode-cli/src/lib/gemini.ts:31-36 | After a successful launch the status file holds the `running` record for the agent, and the script file holds the script. |
| Launcher.LaunchCreatesMissingLogs | packages/vibecode-cli/src/lib/gemini.ts:20-23 | Creation of the logs directory is attempted exactly when it is missing. |
| Agents.AgentsDir | packages/vibecode-cli/src/lib/agents.ts:20-34 | The project's `docs/VibeCode-Agents` wins, then the bundled directory. The lookup fails with "No agents directory" exactly when neither exists. |
| Agents.ModeConfig | packages/vibecode-cli/src/lib/agents.ts:50-51 | The first `customModes` entry is used when it is truthy, otherwise the document itself. An empty document throws. |
| Agents.LoadAgentErrors | packages/vibecode-cli/src/lib/agents.ts:39-45 | Loading fails for want of a directory exactly when neither exists, and with "not found" (naming the slug) exactly when the directory has no `<slug>.yaml`. |
| Agents.LoadAgentDefaults | packages/vibecode-cli/src/lib/agents.ts:47-60 | A loaded agent takes each field from the mode entry when it is non-empty. A missing slug or name is the requested slug; the other four fields default to "". |
| Agents.YamlFiles | packages/vibecode-cli/src/lib/agents.ts:68 | Exactly the listing's names that end in ".yaml", and no more of them than the listing holds. |
| Agents.YamlFilesAppend | packages/vibecode-cli/src/lib/agents.ts:68 | The filter keeps listing order and multiplicity: filtering two listings joined gives the first one's files followed by the second one's. |
| Agents.Insert | packages/vibecode-cli/src/lib/agents.ts:87 | Inserting into a sorted list keeps it sorted and adds exactly one entry. |
| Agents.SortBySlug | packages/vibecode-cli/src/lib/agents.ts:87 | The result is sorted by slug and is a permutation of the input. |
| Agents.StrLeTotal | packages/vibecode-cli/src/lib/agents.ts:87 | The slug order is total. |
| Agents.StrLeTrans | packages/vibecode-cli/src/lib/agents.ts:87 | The slug order is transitive. |
| Agents.ListAgents | packages/vibecode-cli/src/lib/agents.ts:66-88 | The loop's result equals `ListSpec`; its invariant is that the entries so far are those of the files read so far. |
| Agents.CollectStep | packages/vibecode-cli/src/lib/agents.ts:72-85 | One more file adds its entry if it loads, and nothing otherwise. |
| Agents.CollectMembers | packages/vibecode-cli/src/lib/agents.ts:72-85 | The collected entries are exactly those of the files that load. |
| Agents.CollectCount | packages/vibecode-cli/src/lib/agents.ts:72-85 | One entry per file that loads. |
| Agents.ListAgentsContents | packages/vibecode-cli/src/lib/agents.ts:66-88 | The list is sorted by slug and is a permutation of the entries of the ".yaml" files that load, in listing order and one per file (invalid files are skipped). Its length is the number of files that load, and its members are exactly their entries. |
| Agents.EntryDefaultsToStem | packages/vibecode-cli/src/lib/agents.ts:79-80 | A listed file whose mode entry has no slug (or name) is listed under its file name without ".yaml". |
| Agents.PromptLayout | packages/vibecode-cli/src/lib/agents.ts:93-120 | The prompt opens with the agent's name as a heading and holds the role, the custom instructions and the task at fixed offsets, in that order. It ends with the execution-mode section. |
| Agents.SectionsLayout | packages/vibecode-cli/src/lib/agents.ts:94-108 | The same layout for any closing section, with the exact length. |
| StatusStore.StatusFiles | packages/vibecode-cli/src/lib/status.ts:29 | Exactly the listing's names that end in "-status.json", and no more of them than the listing holds. |
| StatusStore.StatusFilesAppend | packages/vibecode-cli/src/lib/status.ts:29 | The filter keeps listing order and multiplicity: filtering two listings joined gives the first one's files followed by the second one's. |
| StatusStore.GetAgentStatuses | packages/vibecode-cli/src/lib/status.ts:22-47 | The loop's result equals `Statuses`; its invariant is that each record so far is that file's record. |
| StatusStore.StatusesShape | packages/vibecode-cli/src/lib/status.ts:22-47 | No logs directory gives no entries. Otherwise there is one entry per status file, in listing order. It is whatever the file parses to, `null` included, or an `error` record naming the agent and carrying the error. The listing itself fails exactly when the logs path is a file. |
| StatusStore.AgentNameRoundTrip | packages/vibecode-cli/src/lib/status.ts:40 | An agent name without "-status.json" is recovered from its file name. |
| StatusStore.ReadStatusNamesAgent | packages/vibecode-cli/src/lib/status.ts:33-43 | The entry read from `<agent>-status.json` is the file's parsed value or an `error` record for that same agent. Reading never throws. |
| StatusStore.LeadingRecordsFacts | packages/vibecode-cli/src/lib/status.ts:66 | The records the display loop gets through are the entries before the first `null`, and all of them when there is none. |
| StatusStore.Count | packages/vibecode-cli/src/lib/status.ts:90-91 | A count never exceeds the number of records. |
| StatusStore.CountZeroIff | packages/vibecode-cli/src/lib/status.ts:90-91 | The count is zero exactly when no record has that status. |
| StatusStore.CountsBounded | packages/vibecode-cli/src/lib/status.ts:90-93 | The complete and running counts together never exceed the number of records. |
| StatusStore.Icon | packages/vibecode-cli/src/lib/status.ts:67-69 | `[...]` exactly for running, `[OK]` exactly for complete, `[ERR]` for everything else. |
| StatusStore.RecordIndented | packages/vibecode-cli/src/lib/status.ts:75-85 | Every line printed for a record is indented. |
| StatusStore.RecordLinesIndented | packages/vibecode-cli/src/lib/status.ts:66-86 | Every record line of the display is indented. |
| StatusStore.HeaderLines | packages/vibecode-cli/src/lib/status.ts:53-58 | No banner line is a summary line. |
| StatusStore.DisplaySummaryIffAgents | packages/vibecode-cli/src/lib/status.ts:60-93 | The display throws exactly when an entry is `null`. The summary line is printed exactly when there are entries and none is `null`, and the "No agents running" message exactly when there are none. |
| StatusStore.EmptyDisplay | packages/vibecode-cli/src/lib/status.ts:60-64 | With no entries, the display completes and the banner is followed by the message and a blank line only. |
| StatusStore.NonEmptyDisplay | packages/vibecode-cli/src/lib/status.ts:66-93 | With entries and no `null` among them, the display completes. The summary counts every entry, and the message is not printed. |
| StatusStore.NullEntryCrashesDisplay | packages/vibecode-cli/src/lib/status.ts:66-75 | With a `null` entry, the display throws after the banner and the lines of the records before the first `null`. Neither the summary nor the message is printed. |
| StatusStore.SummaryLineShape | packages/vibecode-cli/src/lib/status.ts:93 | The summary line starts with "Summary: ". |
| StatusStore.NoAgentsLineShape | packages/vibecode-cli/src/lib/status.ts:61 | The no-agents message is neither a record line nor a summary line. |
| StatusStore.IsDoneIff | packages/vibecode-cli/src/lib/status.ts:106-108 | Waiting stops exactly when there are records and none is running; an empty listing never ends it. |
| StatusStore.WaitForCompletion | packages/vibecode-cli/src/lib/status.ts:100-119 | The poll loop equals `WaitSpec`. |
| StatusStore.WaitFromFacts | packages/vibecode-cli/src/lib/status.ts:102-117 | Every rescheduling delay is the interval in milliseconds. Each check before the end saw records, none `null`, with one running or none at all. The wait ends at the first check that is done, resolving with its records. It also ends at the first check that throws: its listing failed, or it held a `null` entry. |
| StatusStore.WaitResolvesOnFirstDone | packages/vibecode-cli/src/lib/status.ts:100-119 | The wait resolves with the records of the first check that found records, none `null` and none running. It ends in an exception at the first check whose listing fails or holds a `null`. Every earlier check rescheduled after `intervalSeconds * 1000` ms. |
| StatusStore.NullFileCrashesWatch | packages/vibecode-cli/src/lib/status.ts:35-36 | A logs directory whose one status file holds `null` lists a `null` entry, not an error record. The display throws, and the wait's first check ends in an exception. |
| StatusStore.CheckedStatusesNeverThrow | packages/vibecode-cli/src/lib/status.ts:32-43 | With the intended reading, the listing fails exactly when the code's does. It keeps every record the code reads and turns each `null` into an `error` record for that file's agent, so the display never throws. A failed listing fails with the code's own error. |
| StatusStore.CheckedWaitThrowsOnlyOnListing | packages/vibecode-cli/src/lib/status.ts:100-117 | With the intended reading, the wait ends in an exception only at a check whose listing of the logs directory throws in the code too, and with that same error. |
| StatusStore.CheckedAgreesWithoutNull | packages/vibecode-cli/src/lib/status.ts:22-47 | Where no file holds `null`, the checked listing equals the code's. |
| StatusStore.CheckedWaitAgreesWithoutNull | packages/vibecode-cli/src/lib/status.ts:100-117 | Where no check sees a `null` entry, the intended wait ends exactly as the code's does. |
| StatusStore.CheckedWatchNeverThrowsOnNull | packages/vibecode-cli/src/lib/status.ts:32-117 | With the intended reading, no check's display throws, and the wait throws only where a listing throws in the code too. |
| Lifecycle.StatusPathsAgree | packages/vibecode-cli/src/commands/merge.ts:44 | For any non-empty feature name, the launcher, the status store and the merge cleanup name the same file, and it is a status file. |
| Lifecycle.DefaultStatusPath | packages/vibecode-cli/src/lib/gemini.ts:25-28 | Without a feature, the file is `agent-status.json`, and the store names it "agent". |
| Lifecycle.SpawnedFeatureShowsRunning | packages/vibecode-cli/src/lib/status.ts:33-40 | Right after `spawn --worktree f` succeeds, the status store reads f's file as a `running` record for f, and names its agent f. |
| Lifecycle.MergedFeatureLeavesNoRecord | packages/vibecode-cli/src/commands/merge.ts:44-48 | After `merge f` with cleanup succeeds, f's status file is gone. A listing of the logs directory taken afterwards has no status file for f. |
| Text.ReplaceFirst | packages/vibecode-cli/src/lib/status.ts:40 | Without an occurrence the string is unchanged. Otherwise the first occurrence, and only it, is replaced: the text before and after it is kept. |
| Text.StripAppendedPattern | packages/vibecode-cli/src/lib/status.ts:40 | Replacing the first occurrence of a suffix (whose first character does not recur in it) removes that suffix from a stem that does not contain it. |
| Text.NatToStringRoundTrip | pomodoro-timer/src/lib/utils.ts:11 | The decimal digits of a number read back as that number. |
| Text.PadStart | pomodoro-timer/src/lib/utils.ts:11 | The string is unchanged when long enough; otherwise it is left-filled to exactly the width, with the string at the end. |
| TimerReducer.InitialStateReady | pomodoro-timer/src/context/timerReducer.ts:3-13 | The initial state is a stopped 25-minute work session with its full time left, breaks of 5 and 15 minutes, no sessions, and sound on. |
| TimerReducer.StartPauseFlags | pomodoro-timer/src/context/timerReducer.ts:17-28 | START runs and unpauses, and PAUSE stops and pauses. Nothing else changes. |
| TimerReducer.ResetRefills | pomodoro-timer/src/context/timerReducer.ts:29-39 | RESET stops and refills the current session. The session, durations, count and sound stay. |
| TimerReducer.SetSessionTypeSwitches | pomodoro-timer/src/context/timerReducer.ts:40-54 | SET_SESSION_TYPE switches to the session with its full time, stopped. |
| TimerReducer.SetDurationUpdates | pomodoro-timer/src/context/timerReducer.ts:60-73 | SET_DURATION sets that session's duration to minutes × 60 and leaves the other two. It touches the time left only when that session is the current one. |
| TimerReducer.CounterAndAudio | pomodoro-timer/src/context/timerReducer.ts:74-93 | INCREMENT_SESSIONS adds one and RESET_SESSIONS zeroes the count. TOGGLE_AUDIO flips the sound and undoes itself. |
| TimerReducer.LoadSettingsOverwrites | pomodoro-timer/src/context/timerReducer.ts:94-100 | LOAD_SETTINGS overwrites exactly the fields its payload has. An unknown action leaves the state as it is. |
| TimerReducer.ReducePreservesCoherent | pomodoro-timer/src/context/timerReducer.ts:15-102 | No action except a flag-setting LOAD_SETTINGS makes the timer running and paused at once. |
| TimerReducer.LoadSettingsMayBreakCoherent | pomodoro-timer/src/context/timerReducer.ts:94-98 | A LOAD_SETTINGS payload setting both flags does break that. |
| TimerReducer.ReduceAllPreservesCoherent | pomodoro-timer/src/context/timerReducer.ts:15-102 | Coherence survives any run of such actions. |
| TimerReducer.ReduceAllTwo | pomodoro-timer/src/context/timerReducer.ts:15-102 | Dispatching two actions is reducing twice, in order. |
| TimerTick.NextSession | pomodoro-timer/src/hooks/useTimer.ts:20-26 | After work comes a short break, after either break work; never a long break. |
| TimerTick.TickCases | pomodoro-timer/src/hooks/useTimer.ts:8-28 | A stopped timer dispatches nothing. A running one with time left dispatches one decrement. At zero it dispatches the session count and then the switch, and asks for the sound exactly when audio is on. It never switches to a long break. |
| TimerTick.ScheduleIffCountdown | pomodoro-timer/src/hooks/useTimer.ts:33-35 | The interval is scheduled exactly when the tick would count down. |
| TimerTick.TickKeepsTimeNonNegative | pomodoro-timer/src/hooks/useTimer.ts:8-28 | With non-negative times, a tick never makes the time negative. |
| TimerTick.WorkSessionCompletes | pomodoro-timer/src/hooks/useTimer.ts:11-22 | The tick at zero after work counts one session and gives a stopped short break with its full time. Nothing else changes. Only the intended schedule reaches this tick. |
| TimerTick.BreakCompletes | pomodoro-timer/src/hooks/useTimer.ts:11-26 | The tick at zero after a break counts one session and gives a stopped work session with its full time. |
| TimerTick.CountdownStallsAtZero | pomodoro-timer/src/hooks/useTimer.ts:8-42 | Under the hook's own scheduling, a running session with t seconds left reaches zero within t seconds. It then stays there for good, still running, with nothing else changed: the session is never counted or switched. |
| TimerTick.StallExample | pomodoro-timer/src/hooks/useTimer.ts:30-42 | A work session started with one second left still shows 00:00 a minute later, running, with no session completed. |
| TimerTick.IntendedCountdown | pomodoro-timer/src/hooks/useTimer.ts:8-10 | With the interval kept while the timer runs, t seconds bring a running session to zero, still running. |
| TimerTick.IntendedRunCompletesSession | pomodoro-timer/src/hooks/useTimer.ts:8-28 | With the interval kept while the timer runs, a session with t seconds left is completed after t + 1 seconds. One more session is counted, and the next session (short break after work, work after a break) is stopped with its full time. |
| TimerUtils.JsRem60 | pomodoro-timer/src/lib/utils.ts:10 | JavaScript's remainder: the sign of the dividend, magnitude below 60, consistent with the floored quotient. |
| TimerUtils.TwoDigitsOfSmall | pomodoro-timer/src/lib/utils.ts:11 | A number below 100 is written as exactly two digits that read back as it. |
| TimerUtils.MinutesAndSeconds | pomodoro-timer/src/lib/utils.ts:9-10 | Below 100 minutes, the minutes are below 100, the seconds below 60, and together they give the input back. |
| TimerUtils.ClockShape | pomodoro-timer/src/lib/utils.ts:11 | Two two-digit fields joined by ':' give five characters, digits everywhere but the colon. |
| TimerUtils.FormatTimeLayout | pomodoro-timer/src/lib/utils.ts:8-12 | Below 100 minutes, `formatTime` gives `mm:ss`: two digits, a colon, two digits. |
| TimerUtils.FormatTimeValue | pomodoro-timer/src/lib/utils.ts:8-12 | The two fields read back as minutes × 60 + seconds = the input, with the seconds below 60. |
| TimerUtils.FormatTimeExamples | pomodoro-timer/src/lib/utils.ts:8-12 | 0, 59, 60, 65 and 3600 seconds format as 00:00, 00:59, 01:00, 01:05 and 60:00. |
| TimerUtils.SecondsToMinutes | pomodoro-timer/src/lib/utils.ts:14-16 | The ceiling: the smallest number of whole minutes covering the seconds. |
| TimerUtils.ConversionExamples | pomodoro-timer/src/lib/utils.ts:14-20 | 60 s is 1 min, 90 s is 2 min, and 1 min is 60 s. |
| TimerUtils.MinutesRoundTrip | pomodoro-timer/src/lib/utils.ts:14-20 | Rounding up to minutes and back adds less than a minute. |
| TimerUtils.SecondsRoundTrip | pomodoro-timer/src/lib/utils.ts:14-20 | Whole minutes survive the trip through seconds. |
| TimerUtils.ValidateDuration | pomodoro-timer/src/lib/utils.ts:22-27 | For a non-empty range, the result lies within it, and a value already inside is returned unchanged. |
| TimerUtils.ValidateDurationIdempotent | pomodoro-timer/src/lib/utils.ts:22-27 | Clamping twice is clamping once. Below the range gives min, above it gives max. |
| TimerUtils.ValidateDurationExamples | pomodoro-timer/src/lib/utils.ts:22-27 | 10, 1 and 100 clamp to 10, 5 and 20 in [5, 20]. |
| TimerUtils.SessionNamesDistinct | pomodoro-timer/src/lib/utils.ts:29-53 | Each of the three session types has its own non-empty label and its own colour. Any other name gets the empty label and the neutral colour. |

## Left out

- Real git, filesystem and process behaviour. Git is reduced to branches as commit sets and a worktree registry; commands succeed or fail by the oracle `ok`, and a failed command changes nothing. Partial effects of a failing `cpSync` or `git worktree add` are not modelled.
- The PowerShell script's own run. It later overwrites the status record with `complete`; it is text here, and the agent process is opaque. The `-status.json` record written by the subprocess is an input to the status store, not a step of the model.
- Concurrency between agents and the orchestrator, and the atomicity of status writes: each poll sees one consistent snapshot (`Observation`).
- Console output other than the lines the model returns: the merge guidance, the merge hint, and the status display. `process.exit` is an exit code.
- `JSON.parse`, `JSON.stringify` beyond the initial record, and YAML parsing. These are oracles (`parse`). YAML fields other than strings are treated as absent; a field that is a number or a list is not modelled.
- `localeCompare`: replaced by code-point order on slugs. The order of entries with equal slugs is not stated (both `Array.prototype.sort` and `SortBySlug` keep it; no lemma says so).
- Feature names and file names containing '/'. A path is a sequence of segments, so such a name stays one segment.
- The clock, `TEMP`, `Date.now()` and `toLocaleTimeString()`: inputs, not readings.
- The status value's type `'running' | 'complete' | 'error'`: any string, as `JSON.parse` does not check it.
- StatusStore.ReadStatus: a parsed value other than `null` (a number, a string, an array, an object with missing or non-string fields) is given by the oracle as the record its fields read as. JavaScript's `undefined` fields and their printing are not modelled beyond that.
- `spawn --mode`: the cast of an arbitrary string to the mode union is not modelled; the mode is one of the three values.
- Pomodoro timer floating point. All times are whole numbers, so `Math.floor(value)` in `validateDuration` and non-integer seconds in `formatTime` are not modelled.
- TimerReducer.Reduce: LOAD_SETTINGS with an explicit `undefined` value for a key is treated as the key being absent.
- The audio player, the React effect's cleanup and re-subscription, and every other part of the timer UI.
- `cli.ts` and `commands/status.ts` (argument parsing and the status command's wiring) are not part of this model.
- `waitForCompletion` polls forever. The model follows a finite sequence of observations and reports `StillPolling` when they run out.

## Findings

| source | as written | input that shows it | evidently intended | confidence | as-written member | corrected member |
|---|---|---|---|---|---|---|
| packages/vibecode-cli/src/lib/status.ts:35-36 | Whatever `JSON.parse` returns is pushed; the cast checks nothing, so a status file holding `null` becomes a `null` entry, and `status.status` at line 67 (and the filter at line 106) throws a TypeError | `.agent-logs/a-status.json` containing `null`, then `vibecode status` or the wait | a file that is not a usable record becomes an `error` record, like an unreadable or unparsable one: the display never throws on it, and the wait throws only where the listing of the logs directory throws | medium, not executed | StatusStore.NullFileCrashesWatch | StatusStore.CheckedWatchNeverThrowsOnNull |
| pomodoro-timer/src/hooks/useTimer.ts:33-35 | The interval is set only while `isRunning && timeLeft > 0`, and the effect re-runs when `timeLeft` changes, so once the time reaches 0 no interval exists and the completion branch of `tick` (lines 11-27) never runs | a running work session with 1 second left: a minute later it is still running at 00:00 with no session counted | the interval keeps running while the timer runs, so the tick at zero counts the session, plays the sound and switches session | high, not executed | TimerTick.StallExample | TimerTick.IntendedRunCompletesSession |
