/**
 * The outside world the command-line tool acts on, as an explicit value: the
 * filesystem, the git repository (branches as the sets of commits reachable from
 * them, the checked-out branch, the registered worktrees), the detached processes
 * started so far, and the history of every command attempted.
 *
 * Whether a command (`execSync`, `copyFileSync`, `writeFileSync`, ...) succeeds is
 * decided by an oracle `ok: Command -> bool`; a command that fails has no effect
 * besides being recorded as attempted.
 */
module Shell {
  import opened Wrappers
  import opened Paths

  type Commit = nat

  datatype Node = File(content: string) | Dir

  /** A detached, unref'd process started by the launcher. */
  datatype Launch =
    | TerminalTab(title: string, workDir: Path, script: Path)   // `wt ... new-tab ... powershell -File script`
    | Background(script: Path, workDir: Path)                   // `powershell -File script` with cwd workDir

  datatype Command =
    | BranchList(branch: string)                 // git branch --list <branch>
    | BranchCreate(branch: string)               // git branch <branch>
    | WorktreeAdd(path: Path, branch: string)    // git worktree add "<path>" <branch>
    | CopyFile(src: Path, dst: Path)             // copyFileSync
    | CopyDir(src: Path, dst: Path)              // cpSync(..., { recursive: true })
    | WorktreeRemove(path: Path)                 // git worktree remove "<path>" --force
    | ForceDelete(path: Path)                    // rmdir /s /q "<path>"
    | WorktreePrune                              // git worktree prune
    | BranchDelete(branch: string)               // git branch -d <branch> -f
    | Merge(branch: string)                      // git merge <branch> --no-edit
    | Log(branch: string)                        // git log HEAD..<branch> --oneline
    | MakeDir(path: Path)                        // mkdirSync(..., { recursive: true })
    | WriteFile(path: Path, content: string)     // writeFileSync
    | RemoveFile(path: Path)                     // rmSync

  datatype Snapshot = Snapshot(
    fs: map<Path, Node>,
    branches: map<string, set<Commit>>,
    head: string,
    worktrees: set<Path>,
    processes: seq<Launch>,
    history: seq<Command>)

  /** Commits reachable from a branch; none for a branch that does not exist. */
  function Commits(st: Snapshot, branch: string): set<Commit> {
    if branch in st.branches then st.branches[branch] else {}
  }

  /** The filesystem with `root` and everything below it deleted. */
  function RemoveTree(fs: map<Path, Node>, root: Path): (r: map<Path, Node>)
    ensures forall p :: p in r <==> p in fs && !Within(root, p)
    ensures forall p :: p in r ==> r[p] == fs[p]
  {
    map p | p in fs && !Within(root, p) :: fs[p]
  }

  lemma CopyKeysDistinct(src: Path, dst: Path, p: Path, q: Path)
    requires Within(src, p) && Within(src, q)
    requires dst + p[|src|..] == dst + q[|src|..]
    ensures p == q
  {
    assert p[|src|..] == (dst + p[|src|..])[|dst|..];
    assert q[|src|..] == (dst + q[|src|..])[|dst|..];
    assert p == p[..|src|] + p[|src|..];
    assert q == q[..|src|] + q[|src|..];
  }

  /** What `src` and everything below it become when copied to `dst`. */
  function CopiedTree(fs: map<Path, Node>, src: Path, dst: Path): (r: map<Path, Node>)
    ensures forall p :: p in fs && Within(src, p) ==> dst + p[|src|..] in r && r[dst + p[|src|..]] == fs[p]
    ensures forall q :: q in r ==> Within(dst, q)
  {
    assert forall p, q :: p in fs && Within(src, p) && q in fs && Within(src, q) && dst + p[|src|..] == dst + q[|src|..] ==> p == q by {
      forall p, q | p in fs && Within(src, p) && q in fs && Within(src, q) && dst + p[|src|..] == dst + q[|src|..] ensures p == q {
        CopyKeysDistinct(src, dst, p, q);
      }
    }
    map p | p in fs && Within(src, p) :: dst + p[|src|..] := fs[p]
  }

  /** The state after a command succeeds (the history is extended by `Run`). */
  function Effect(st: Snapshot, c: Command): Snapshot {
    match c
    case BranchList(_) => st
    case BranchCreate(b) => st.(branches := st.branches[b := Commits(st, st.head)])
    case WorktreeAdd(p, _) => st.(fs := st.fs[p := Dir], worktrees := st.worktrees + {p})
    case CopyFile(src, dst) => if src in st.fs then st.(fs := st.fs[dst := st.fs[src]]) else st
    case CopyDir(src, dst) => st.(fs := st.fs + CopiedTree(st.fs, src, dst))
    case WorktreeRemove(p) => st.(fs := RemoveTree(st.fs, p), worktrees := st.worktrees - {p})
    case ForceDelete(p) => st.(fs := RemoveTree(st.fs, p))
    case WorktreePrune => st.(worktrees := set w | w in st.worktrees && w in st.fs)
    case BranchDelete(b) => st.(branches := st.branches - {b})
    case Merge(b) => st.(branches := st.branches[st.head := Commits(st, st.head) + Commits(st, b)])
    case Log(_) => st
    case MakeDir(p) => st.(fs := st.fs[p := Dir])
    case WriteFile(p, text) => st.(fs := st.fs[p := File(text)])
    case RemoveFile(p) => st.(fs := st.fs - {p})
  }

  /** Attempting `c`: it is recorded, and it takes effect exactly when it succeeds. */
  function Run(st: Snapshot, c: Command, success: bool): (r: Snapshot)
    ensures r.history == st.history + [c]
    ensures r.processes == st.processes && r.head == st.head
    ensures !success ==> r == st.(history := st.history + [c])
  {
    var attempted := st.(history := st.history + [c]);
    if success then Effect(attempted, c) else attempted
  }

  /** Starting a detached process: node reports launch errors asynchronously, so it never fails here. */
  function Start(st: Snapshot, l: Launch): (r: Snapshot)
    ensures r.processes == st.processes + [l]
    ensures r.fs == st.fs && r.branches == st.branches && r.history == st.history
  {
    st.(processes := st.processes + [l])
  }

  // ---------------------------------------------------------------------
  // Runs of commands that stop at the first exception
  // ---------------------------------------------------------------------

  /** A sequence of commands run until the first one that throws. */
  datatype Attempt = Attempt(st: Snapshot, failed: Option<Command>)

  /** Runs `c` unless an earlier command already threw. */
  function Then(a: Attempt, c: Command, ok: Command -> bool): Attempt {
    if a.failed.Some? then a else Attempt(Run(a.st, c, ok(c)), if ok(c) then None else Some(c))
  }

  function Last(h: seq<Command>): Command
    requires h != []
  {
    h[|h| - 1]
  }

  /** A failed attempt's error is the last command run, and that command failed. */
  predicate Consistent(a: Attempt, ok: Command -> bool) {
    a.failed.Some? ==> |a.st.history| > 0 && a.st.history[|a.st.history| - 1] == a.failed.value && !ok(a.failed.value)
  }
}
