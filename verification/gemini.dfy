/**
 * The agent launcher: names the agent and its log and status files, records the
 * agent as running, writes a PowerShell script that runs the Gemini CLI on the
 * prompt, and starts that script detached (in a new terminal tab or in the
 * background) without waiting for it.
 *
 * Every clock reading the launcher makes is an input (`Clock`), and so is the
 * `TEMP` environment variable.
 */
module Launcher {
  import opened Wrappers
  import opened Text
  import opened Paths
  import opened Shell
  import Worktree

  datatype ApprovalMode = Yolo | AutoEdit | DefaultMode

  function ModeName(m: ApprovalMode): string {
    match m
    case Yolo => "yolo"
    case AutoEdit => "auto_edit"
    case DefaultMode => "default"
  }

  datatype SpawnOptions = SpawnOptions(workDir: Path, approvalMode: ApprovalMode, useTerminal: bool, featureName: Option<string>)

  /**
   * The clock readings, in the order the launcher makes them: the log-name
   * timestamp, the `started` field of the status record, `Date.now()` for the
   * script name, and the two timestamps written into the script.
   */
  datatype Clock = Clock(slugIso: string, startedIso: string, nowMs: nat, scriptIso: string, finalIso: string)

  // ---------------------------------------------------------------------
  // Names
  // ---------------------------------------------------------------------

  /** `featureName || 'agent'` */
  function AgentName(featureName: Option<string>): (name: string)
    ensures name != ""
    ensures featureName.Some? && featureName.value != "" ==> name == featureName.value
    ensures featureName.None? || featureName.value == "" ==> name == "agent"
  {
    if featureName.Some? && featureName.value != "" then featureName.value else "agent"
  }

  function SlugChar(c: char): char {
    if c == ':' || c == '.' then '-' else c
  }

  /** `s.replace(/[:.]/g, '-')` */
  function ReplaceSeparators(s: string): (r: string)
    ensures |r| == |s|
    ensures forall i :: 0 <= i < |s| ==> r[i] == SlugChar(s[i])
  {
    if s == [] then [] else [SlugChar(s[0])] + ReplaceSeparators(s[1..])
  }

  /** The ISO time with every ':' and '.' made '-', cut to 19 characters. */
  function TimestampSlug(iso: string): (slug: string)
    ensures |slug| == if |iso| < 19 then |iso| else 19
    ensures forall i :: 0 <= i < |slug| ==> slug[i] == SlugChar(iso[i])
    ensures forall i :: 0 <= i < |slug| ==> slug[i] != ':' && slug[i] != '.'
  {
    var replaced := ReplaceSeparators(iso);
    if |replaced| <= 19 then replaced else replaced[..19]
  }

  /** `<projectDir>/.agent-logs` */
  function AgentLogs(projectDir: Path): Path {
    Join(projectDir, ".agent-logs")
  }

  function LogFilePath(projectDir: Path, agent: string, slug: string): Path {
    Join(AgentLogs(projectDir), agent + "-" + slug + ".log")
  }

  function StatusFilePath(projectDir: Path, agent: string): Path {
    Join(AgentLogs(projectDir), agent + "-status.json")
  }

  /** `join(process.env.TEMP || '/tmp', 'gemini-agent-<ms>.ps1')`; `None` stands for an unset or empty TEMP. */
  function ScriptPath(temp: Option<Path>, nowMs: nat): Path {
    Join(if temp.Some? then temp.value else ["tmp"], "gemini-agent-" + NatToString(nowMs) + ".ps1")
  }

  /** The status file and the script are never the same file: their names end differently. */
  lemma StatusFileIsNotScript(projectDir: Path, agent: string, temp: Option<Path>, nowMs: nat)
    ensures StatusFilePath(projectDir, agent) != ScriptPath(temp, nowMs)
  {
    var a := agent + "-status.json";
    var b := "gemini-agent-" + NatToString(nowMs) + ".ps1";
    assert a[|a| - 1] == 'n';
    assert b[|b| - 1] == '1';
    assert StatusFilePath(projectDir, agent)[|StatusFilePath(projectDir, agent)| - 1] == a;
    assert ScriptPath(temp, nowMs)[|ScriptPath(temp, nowMs)| - 1] == b;
  }

  // ---------------------------------------------------------------------
  // Prompt escaping
  // ---------------------------------------------------------------------

  function CountChar(s: string, c: char): nat {
    if s == [] then 0 else (if s[0] == c then 1 else 0) + CountChar(s[1..], c)
  }

  /** `s` with every `c` removed. */
  function Without(s: string, c: char): string {
    if s == [] then [] else (if s[0] == c then [] else [s[0]]) + Without(s[1..], c)
  }

  lemma CountCharConcat(a: string, b: string, c: char)
    ensures CountChar(a + b, c) == CountChar(a, c) + CountChar(b, c)
  {
    if a != [] {
      assert (a + b)[0] == a[0];
      assert (a + b)[1..] == a[1..] + b;
      CountCharConcat(a[1..], b, c);
    } else {
      assert a + b == b;
    }
  }

  lemma WithoutConcat(a: string, b: string, c: char)
    ensures Without(a + b, c) == Without(a, c) + Without(b, c)
  {
    if a != [] {
      assert (a + b)[0] == a[0];
      assert (a + b)[1..] == a[1..] + b;
      WithoutConcat(a[1..], b, c);
    } else {
      assert a + b == b;
    }
  }

  /**
   * `prompt.replace(/'/g, "''")`: every quote doubled, nothing else changed —
   * the result has twice the quotes and, quotes aside, the same text.
   */
  function EscapePrompt(p: string): (e: string)
    ensures |e| == |p| + CountChar(p, '\'')
    ensures CountChar(e, '\'') == 2 * CountChar(p, '\'')
    ensures Without(e, '\'') == Without(p, '\'')
  {
    if p == [] then []
    else
      var head := if p[0] == '\'' then "''" else [p[0]];
      var rest := EscapePrompt(p[1..]);
      CountCharConcat(head, rest, '\'');
      WithoutConcat(head, rest, '\'');
      head + rest
  }

  /** `e.replace(/''/g, "'")`: each pair of quotes, scanning left to right, becomes one. */
  function CollapseQuotes(e: string): string
    decreases |e|
  {
    if e == [] then []
    else if |e| >= 2 && e[0] == '\'' && e[1] == '\'' then "'" + CollapseQuotes(e[2..])
    else [e[0]] + CollapseQuotes(e[1..])
  }

  /** Collapsing doubled quotes gives back the original prompt. */
  lemma {:induction false} EscapeRoundTrip(p: string)
    ensures CollapseQuotes(EscapePrompt(p)) == p
  {
    if p != [] {
      EscapeRoundTrip(p[1..]);
      var rest := EscapePrompt(p[1..]);
      if p[0] == '\'' {
        assert EscapePrompt(p) == "''" + rest;
        assert ("''" + rest)[2..] == rest;
      } else {
        assert EscapePrompt(p) == [p[0]] + rest;
        assert ([p[0]] + rest)[1..] == rest;
      }
    }
  }

  // ---------------------------------------------------------------------
  // The initial status record, as `JSON.stringify(status, null, 2)` writes it
  // ---------------------------------------------------------------------

  function HexDigit(d: nat): char
    requires d < 16
  {
    "0123456789abcdef"[d]
  }

  /** One character inside a JSON string literal. */
  function JsonChar(c: char): string {
    if c == '"' then "\\\""
    else if c == '\\' then "\\\\"
    else if c == '\n' then "\\n"
    else if c == '\r' then "\\r"
    else if c == '\t' then "\\t"
    else if c == '\U{8}' then "\\b"
    else if c == '\U{C}' then "\\f"
    else if c < ' ' then "\\u00" + [HexDigit(c as int / 16), HexDigit(c as int % 16)]
    else [c]
  }

  function JsonEscape(s: string): string {
    if s == [] then [] else JsonChar(s[0]) + JsonEscape(s[1..])
  }

  function JsonString(s: string): string {
    "\"" + JsonEscape(s) + "\""
  }

  /** A string without quotes, backslashes or control characters is written as it is. */
  lemma {:induction false} PlainJsonText(s: string)
    requires forall i :: 0 <= i < |s| ==> s[i] != '"' && s[i] != '\\' && s[i] >= ' '
    ensures JsonEscape(s) == s
  {
    if s != [] {
      PlainJsonText(s[1..]);
      assert s == [s[0]] + s[1..];
    }
  }

  function InitialStatusJson(started: string, agent: string): string {
    "{\n  \"status\": \"running\",\n  \"started\": " + JsonString(started) + ",\n  \"agent\": " + JsonString(agent) + "\n}"
  }

  // ---------------------------------------------------------------------
  // The script and the launch
  // ---------------------------------------------------------------------

  /** What the script template interpolates. */
  datatype Slot = WorkDir | ScriptStarted | AgentSlot | StatusFile | ModeSlot | LogFile | PromptSlot | FinalStarted

  /** A piece of a script line: fixed text, or an interpolated value. */
  datatype Piece = Fixed(text: string) | Hole(slot: Slot)

  const RuleText: string := "Write-Host '===========================================' -ForegroundColor "

  /** The lines of the script; the escaped prompt is the body of a single-quoted here-string. */
  const ScriptTemplate: seq<seq<Piece>> := [
    [Fixed("Set-Location '"), Hole(WorkDir), Fixed("'")],
    [],
    [Fixed("# Initialize status (use .NET to write UTF-8 without BOM)")],
    [Fixed("$status = @{ status = 'running'; started = '"), Hole(ScriptStarted), Fixed("'; agent = '"), Hole(AgentSlot), Fixed("' } | ConvertTo-Json -Depth 5")],
    [Fixed("[System.IO.File]::WriteAllText('"), Hole(StatusFile), Fixed("', $status)")],
    [],
    [Fixed(RuleText + "Cyan")],
    [Fixed("Write-Host ' VibeCode Agent Starting...' -ForegroundColor Cyan")],
    [Fixed("Write-Host ' Agent: "), Hole(AgentSlot), Fixed("' -ForegroundColor Gray")],
    [Fixed("Write-Host ' Mode: "), Hole(ModeSlot), Fixed("' -ForegroundColor Gray")],
    [Fixed("Write-Host ' Log: "), Hole(LogFile), Fixed("' -ForegroundColor Gray")],
    [Fixed(RuleText + "Cyan")],
    [Fixed("Write-Host ''")],
    [],
    [Fixed("$prompt = @'")],
    [Hole(PromptSlot)],
    [Fixed("'@")],
    [],
    [Fixed("# Run gemini with Tee-Object to capture output")],
    [Fixed("gemini --approval-mode "), Hole(ModeSlot), Fixed(" --output-format stream-json $prompt 2>&1 | Tee-Object -FilePath '"), Hole(LogFile), Fixed("'")],
    [],
    [Fixed("# Update status on completion")],
    [Fixed("$finalStatus = @{ status = 'complete'; started = '"), Hole(FinalStarted), Fixed("'; completed = (Get-Date -Format 'o'); agent = '"), Hole(AgentSlot), Fixed("' } | ConvertTo-Json -Depth 5")],
    [Fixed("[System.IO.File]::WriteAllText('"), Hole(StatusFile), Fixed("', $finalStatus)")],
    [],
    [Fixed("Write-Host ''")],
    [Fixed(RuleText + "Green")],
    [Fixed("Write-Host ' Agent Complete!' -ForegroundColor Green")],
    [Fixed(RuleText + "Green")]
  ]

  /** The values of the slots for one launch. */
  datatype ScriptValues = ScriptValues(workDir: Path, scriptStarted: string, agent: string, statusFile: Path, mode: string, logFile: Path, prompt: string, finalStarted: string)

  function SlotValue(v: ScriptValues, slot: Slot): string {
    match slot
    case WorkDir => PathString(v.workDir)
    case ScriptStarted => v.scriptStarted
    case AgentSlot => v.agent
    case StatusFile => PathString(v.statusFile)
    case ModeSlot => v.mode
    case LogFile => PathString(v.logFile)
    case PromptSlot => v.prompt
    case FinalStarted => v.finalStarted
  }

  function FillLine(pieces: seq<Piece>, v: ScriptValues): string {
    if pieces == [] then []
    else (match pieces[0] case Fixed(t) => t case Hole(slot) => SlotValue(v, slot)) + FillLine(pieces[1..], v)
  }

  /** The template filled in, each line followed by a newline. */
  function Fill(template: seq<seq<Piece>>, v: ScriptValues): string {
    if template == [] then [] else FillLine(template[0], v) + "\n" + Fill(template[1..], v)
  }

  /** The PowerShell script: a leading newline, then the filled-in template. */
  function ScriptText(v: ScriptValues): string {
    "\n" + Fill(ScriptTemplate, v)
  }

  /** The detached process: a titled Windows Terminal tab, or a background PowerShell in the work directory. */
  function LaunchOf(opts: SpawnOptions, agent: string, script: Path): Launch {
    if opts.useTerminal then TerminalTab("VibeCode: " + agent, opts.workDir, script)
    else Background(script, opts.workDir)
  }
  /** Writing the `running` record to the agent's status file. */
  function StatusWrite(projectDir: Path, opts: SpawnOptions, clock: Clock): Command {
    var agent := AgentName(opts.featureName);
    WriteFile(StatusFilePath(projectDir, agent), InitialStatusJson(clock.startedIso, agent))
  }

  /** The script that runs the agent on the prompt. */
  function ScriptFor(projectDir: Path, prompt: string, opts: SpawnOptions, clock: Clock): string {
    var agent := AgentName(opts.featureName);
    var logFile := LogFilePath(projectDir, agent, TimestampSlug(clock.slugIso));
    ScriptText(ScriptValues(opts.workDir, clock.scriptIso, agent, StatusFilePath(projectDir, agent), ModeName(opts.approvalMode), logFile, EscapePrompt(prompt), clock.finalIso))
  }

  /** Writing the script (rendered by `ScriptFor`) to the temporary directory. */
  function ScriptWrite(clock: Clock, temp: Option<Path>, script: string): Command {
    WriteFile(ScriptPath(temp, clock.nowMs), script)
  }

  /** The commands the launcher runs, in order, when none of them throws. */
  function LaunchPlan(st: Snapshot, projectDir: Path, opts: SpawnOptions, clock: Clock, temp: Option<Path>, script: string): seq<Command> {
    (if AgentLogs(projectDir) in st.fs then [] else [MakeDir(AgentLogs(projectDir))])
    + [StatusWrite(projectDir, opts, clock), ScriptWrite(clock, temp, script)]
  }

  /** The logs directory exists, or has been created (or its creation has thrown). */
  function EnsureLogs(st: Snapshot, projectDir: Path, ok: Command -> bool): Attempt {
    if AgentLogs(projectDir) in st.fs then Attempt(st, None) else Then(Attempt(st, None), MakeDir(AgentLogs(projectDir)), ok)
  }

  /**
   * `spawnGeminiAgent(prompt, options)` run from `projectDir`, with `script`
   * the rendered script (`ScriptFor` of the prompt): the final state, and the
   * launched process or the command that threw.
   */
  function LaunchSpec(st: Snapshot, projectDir: Path, opts: SpawnOptions, clock: Clock,
                      temp: Option<Path>, script: string, ok: Command -> bool): (Snapshot, Result<Launch, Command>)
  {
    var a1 := EnsureLogs(st, projectDir, ok);
    var a2 := Then(a1, StatusWrite(projectDir, opts, clock), ok);
    var a3 := Then(a2, ScriptWrite(clock, temp, script), ok);
    if a3.failed.Some? then (a3.st, Failure(a3.failed.value))
    else
      var l := LaunchOf(opts, AgentName(opts.featureName), ScriptPath(temp, clock.nowMs));
      (Start(a3.st, l), Success(l))
  }

  /** `spawnGeminiAgent`: renders the script, then runs the launch. */
  method SpawnGeminiAgent(ws: Worktree.Workspace, projectDir: Path, prompt: string, opts: SpawnOptions, clock: Clock,
                          temp: Option<Path>, ok: Command -> bool) returns (r: Result<Launch, Command>)
    modifies ws
    ensures (ws.Snap(), r) == LaunchSpec(old(ws.Snap()), projectDir, opts, clock, temp, ScriptFor(projectDir, prompt, opts, clock), ok)
  {
    var script := ScriptFor(projectDir, prompt, opts, clock);
    r := RunLaunch(ws, projectDir, opts, clock, temp, script, ok);
  }

  /** The launcher's effects, in order: directory if missing, status record, script, then the process. */
  method RunLaunch(ws: Worktree.Workspace, projectDir: Path, opts: SpawnOptions, clock: Clock,
                   temp: Option<Path>, script: string, ok: Command -> bool) returns (r: Result<Launch, Command>)
    modifies ws
    ensures (ws.Snap(), r) == LaunchSpec(old(ws.Snap()), projectDir, opts, clock, temp, script, ok)
  {
    var logs := AgentLogs(projectDir);
    if logs !in ws.fs {
      var made := ws.Exec(MakeDir(logs), ok);
      if !made {
        return Failure(MakeDir(logs));
      }
    }
    var statusWrite := StatusWrite(projectDir, opts, clock);
    var wrote := ws.Exec(statusWrite, ok);
    if !wrote {
      return Failure(statusWrite);
    }
    var scriptWrite := ScriptWrite(clock, temp, script);
    wrote := ws.Exec(scriptWrite, ok);
    if !wrote {
      return Failure(scriptWrite);
    }
    var launch := LaunchOf(opts, AgentName(opts.featureName), ScriptPath(temp, clock.nowMs));
    ws.StartDetached(launch);
    return Success(launch);
  }

  // ---------------------------------------------------------------------
  // What the launcher promises
  // ---------------------------------------------------------------------

  /** A file-system command run in an attempt touches neither branches, worktrees nor processes. */
  lemma ThenFileCommand(a: Attempt, c: Command, ok: Command -> bool)
    requires c.MakeDir? || c.WriteFile?
    ensures var b := Then(a, c, ok);
      && b.st.history == a.st.history + (if a.failed.None? then [c] else [])
      && b.st.branches == a.st.branches && b.st.worktrees == a.st.worktrees && b.st.processes == a.st.processes
      && b.failed == (if a.failed.Some? then a.failed else if ok(c) then None else Some(c))
  {
  }

  /** The three attempts of a launch: the logs directory, the status record, the script. */
  lemma LaunchStages(st: Snapshot, projectDir: Path, opts: SpawnOptions, clock: Clock,
                     temp: Option<Path>, script: string, ok: Command -> bool)
    ensures var logs := AgentLogs(projectDir);
      var a1 := EnsureLogs(st, projectDir, ok);
      var a2 := Then(a1, StatusWrite(projectDir, opts, clock), ok);
      var a3 := Then(a2, ScriptWrite(clock, temp, script), ok);
      && a1.st.history == st.history + (if logs in st.fs then [] else [MakeDir(logs)])
      && (a1.failed.Some? <==> logs !in st.fs && !ok(MakeDir(logs)))
      && (a1.failed.Some? ==> a3 == a1 && a1.failed.value == MakeDir(logs))
      && (a1.failed.None? ==> a2.st.history == a1.st.history + [StatusWrite(projectDir, opts, clock)])
      && (a1.failed.None? && !ok(StatusWrite(projectDir, opts, clock)) ==> a3 == a2 && a2.failed == Some(StatusWrite(projectDir, opts, clock)))
      && (a2.failed.None? ==> a3.st.history == a2.st.history + [ScriptWrite(clock, temp, script)]
                              && a3.failed == (if ok(ScriptWrite(clock, temp, script)) then None else Some(ScriptWrite(clock, temp, script))))
      && (a2.failed.None? <==> a1.failed.None? && ok(StatusWrite(projectDir, opts, clock)))
  {
    var a1 := EnsureLogs(st, projectDir, ok);
    var a2 := Then(a1, StatusWrite(projectDir, opts, clock), ok);
    ThenFileCommand(Attempt(st, None), MakeDir(AgentLogs(projectDir)), ok);
    ThenFileCommand(a1, StatusWrite(projectDir, opts, clock), ok);
    ThenFileCommand(a2, ScriptWrite(clock, temp, script), ok);
  }

  /**
   * The launcher runs a prefix of its plan — the logs directory only if it is
   * missing, then the status record, then the script — and stops at the first
   * command that throws, which it reports; it succeeds exactly when every
   * planned command does.
   */
  lemma LaunchFollowsPlan(st: Snapshot, projectDir: Path, opts: SpawnOptions, clock: Clock,
                          temp: Option<Path>, script: string, ok: Command -> bool)
    ensures var (st1, r) := LaunchSpec(st, projectDir, opts, clock, temp, script, ok);
      var plan := LaunchPlan(st, projectDir, opts, clock, temp, script);
      var n := |st1.history| - |st.history|;
      && 0 < n <= |plan|
      && st1.history == st.history + plan[..n]
      && (r.Failure? ==> r.error == plan[n - 1] && !ok(r.error))
  {
    var plan := LaunchPlan(st, projectDir, opts, clock, temp, script);
    var k := if AgentLogs(projectDir) in st.fs then 0 else 1;
    LaunchStages(st, projectDir, opts, clock, temp, script, ok);
    assert |plan| == k + 2;
    if EnsureLogs(st, projectDir, ok).failed.Some? {
      assert plan[..1] == [MakeDir(AgentLogs(projectDir))];
    } else {
      assert plan[..k + 1] == plan[..k] + [plan[k]];
      assert plan[..k + 2] == plan;
    }
  }

  /** A launch succeeds exactly when every planned command does. */
  lemma LaunchSucceedsIff(st: Snapshot, projectDir: Path, opts: SpawnOptions, clock: Clock,
                          temp: Option<Path>, script: string, ok: Command -> bool)
    ensures LaunchSpec(st, projectDir, opts, clock, temp, script, ok).1.Success?
            <==> forall c :: c in LaunchPlan(st, projectDir, opts, clock, temp, script) ==> ok(c)
  {
    LaunchStages(st, projectDir, opts, clock, temp, script, ok);
  }

  /**
   * Only a launch whose commands all succeeded starts a process, and then
   * exactly one: a terminal tab exactly when `useTerminal` is set, in the
   * work directory, running the script just written. Branches and worktrees
   * are never touched.
   */
  lemma LaunchStartsOne(st: Snapshot, projectDir: Path, opts: SpawnOptions, clock: Clock,
                        temp: Option<Path>, script: string, ok: Command -> bool)
    ensures var (st1, r) := LaunchSpec(st, projectDir, opts, clock, temp, script, ok);
      && st1.branches == st.branches && st1.worktrees == st.worktrees
      && (r.Failure? ==> st1.processes == st.processes)
      && (r.Success? ==> && st1.processes == st.processes + [r.value]
                         && (r.value.TerminalTab? <==> opts.useTerminal)
                         && r.value.workDir == opts.workDir
                         && r.value.script == ScriptPath(temp, clock.nowMs))
  {
    var a1 := EnsureLogs(st, projectDir, ok);
    var a2 := Then(a1, StatusWrite(projectDir, opts, clock), ok);
    ThenFileCommand(Attempt(st, None), MakeDir(AgentLogs(projectDir)), ok);
    ThenFileCommand(a1, StatusWrite(projectDir, opts, clock), ok);
    ThenFileCommand(a2, ScriptWrite(clock, temp, script), ok);
  }

  /**
   * After a successful launch the status file holds the `running` record for
   * the agent, even though the script was written afterwards, and the script
   * file holds the script.
   */
  lemma LaunchWritesRunningRecord(st: Snapshot, projectDir: Path, opts: SpawnOptions, clock: Clock,
                                  temp: Option<Path>, script: string, ok: Command -> bool)
    requires LaunchSpec(st, projectDir, opts, clock, temp, script, ok).1.Success?
    ensures var st1 := LaunchSpec(st, projectDir, opts, clock, temp, script, ok).0;
      var agent := AgentName(opts.featureName);
      && st1.fs[StatusFilePath(projectDir, agent)] == File(InitialStatusJson(clock.startedIso, agent))
      && st1.fs[ScriptPath(temp, clock.nowMs)] == File(script)
  {
    var agent := AgentName(opts.featureName);
    StatusFileIsNotScript(projectDir, agent, temp, clock.nowMs);
    LaunchStages(st, projectDir, opts, clock, temp, script, ok);
  }

  /** The logs directory is created, or its creation attempted, exactly when it is missing. */
  lemma LaunchCreatesMissingLogs(st: Snapshot, projectDir: Path, opts: SpawnOptions, clock: Clock,
                                 temp: Option<Path>, script: string, ok: Command -> bool)
    ensures var st1 := LaunchSpec(st, projectDir, opts, clock, temp, script, ok).0;
      && |st1.history| >= |st.history|
      && (MakeDir(AgentLogs(projectDir)) in st1.history[|st.history|..] <==> AgentLogs(projectDir) !in st.fs)
  {
    LaunchFollowsPlan(st, projectDir, opts, clock, temp, script, ok);
    var st1 := LaunchSpec(st, projectDir, opts, clock, temp, script, ok).0;
    var plan := LaunchPlan(st, projectDir, opts, clock, temp, script);
    var n := |st1.history| - |st.history|;
    assert st1.history[|st.history|..] == plan[..n];
    if AgentLogs(projectDir) in st.fs {
      assert forall c :: c in plan ==> c.WriteFile?;
    } else {
      assert plan[..n][0] == MakeDir(AgentLogs(projectDir));
    }
  }
}
