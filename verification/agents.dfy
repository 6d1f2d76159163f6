/**
 * Agent configurations: where they are looked up, how one is loaded from its
 * YAML file with per-field defaults, how all of them are listed, and the
 * prompt built from one of them and a task.
 *
 * YAML parsing is an input (`parse`), as is the text of a read error.
 */
module Agents {
  import opened Wrappers
  import opened Text
  import opened Paths
  import opened Shell

  /**
   * What the YAML parser returns, as far as the loader looks at it: nothing
   * (an empty document), a scalar (only its truthiness matters), or a mapping
   * with its string fields and, when present, its `customModes` list.
   */
  datatype Yaml =
    | Null
    | Scalar(truthy: bool)
    | Mapping(fields: map<string, string>, customModes: Option<seq<Yaml>>)

  predicate Truthy(y: Yaml) {
    match y
    case Null => false
    case Scalar(t) => t
    case Mapping(_, _) => true
  }

  datatype AgentConfig = AgentConfig(slug: string, name: string, description: string,
                                     roleDefinition: string, whenToUse: string, customInstructions: string)

  /** An entry of the agent list. */
  datatype AgentSummary = AgentSummary(slug: string, name: string)

  const YamlSuffix: string := ".yaml"

  /** Why an agent could not be loaded. */
  datatype LoadError =
    | NoAgentsDir
    | NotFound(slug: string)
    | ReadFailed(message: string)
    | ParseFailed(message: string)
    | NullDocument

  /** The message each error is thrown with. */
  function Message(e: LoadError): string {
    match e
    case NoAgentsDir => "No agents directory found. Create docs/VibeCode-Agents or install with bundled agents."
    case NotFound(slug) => "Agent not found: " + slug + ". Try 'vibecode list' to see available agents."
    case ReadFailed(m) => m
    case ParseFailed(m) => m
    case NullDocument => "Cannot read properties of null (reading 'customModes')"
  }

  // ---------------------------------------------------------------------
  // Where the agents live
  // ---------------------------------------------------------------------

  function ProjectAgentsDir(cwd: Path): Path {
    Join(Join(cwd, "docs"), "VibeCode-Agents")
  }

  /** `join(moduleDir, '..', '..', 'agents')` */
  function BundledAgentsDir(moduleDir: Path): Path {
    Join(Dirname(Dirname(moduleDir)), "agents")
  }

  /** `getAgentsDir()`: the project's agents if that path exists, else the bundled ones if that exists, else an error. */
  function AgentsDir(fs: map<Path, Node>, cwd: Path, moduleDir: Path): (r: Result<Path, LoadError>)
    ensures r.Success? <==> ProjectAgentsDir(cwd) in fs || BundledAgentsDir(moduleDir) in fs
    ensures r.Success? ==> r.value in fs
    ensures ProjectAgentsDir(cwd) in fs ==> r == Success(ProjectAgentsDir(cwd))
    ensures ProjectAgentsDir(cwd) !in fs && BundledAgentsDir(moduleDir) in fs ==> r == Success(BundledAgentsDir(moduleDir))
    ensures r.Failure? ==> r.error == NoAgentsDir
  {
    if ProjectAgentsDir(cwd) in fs then Success(ProjectAgentsDir(cwd))
    else if BundledAgentsDir(moduleDir) in fs then Success(BundledAgentsDir(moduleDir))
    else Failure(NoAgentsDir)
  }

  // ---------------------------------------------------------------------
  // One configuration
  // ---------------------------------------------------------------------

  /** `parsed.customModes?.[0]` exists and is truthy. */
  predicate TruthyFirstMode(parsed: Yaml) {
    parsed.Mapping? && parsed.customModes.Some? && |parsed.customModes.value| > 0 && Truthy(parsed.customModes.value[0])
  }

  /** `parsed.customModes?.[0] || parsed`; reading a property of an empty document throws. */
  function ModeConfig(parsed: Yaml): (r: Result<Yaml, LoadError>)
    ensures r.Failure? <==> parsed.Null?
    ensures r.Success? && r.value != parsed ==>
              && parsed.Mapping? && parsed.customModes.Some? && |parsed.customModes.value| > 0
              && r.value == parsed.customModes.value[0] && Truthy(r.value)
    ensures TruthyFirstMode(parsed) ==> r == Success(parsed.customModes.value[0])
    ensures !parsed.Null? && !TruthyFirstMode(parsed) ==> r == Success(parsed)
  {
    if parsed.Null? then Failure(NullDocument)
    else if TruthyFirstMode(parsed) then Success(parsed.customModes.value[0])
    else Success(parsed)
  }

  /** The mode entry has the field, with a truthy (non-empty) value. */
  predicate HasField(config: Yaml, key: string) {
    config.Mapping? && key in config.fields && config.fields[key] != ""
  }

  /** `config.<key> || fallback` */
  function FieldOr(config: Yaml, key: string, fallback: string): string {
    if HasField(config, key) then config.fields[key] else fallback
  }

  /** The configuration of a mode entry, with `slug` and `name` defaulting to the requested slug. */
  function ConfigOf(config: Yaml, slug: string): AgentConfig {
    AgentConfig(FieldOr(config, "slug", slug), FieldOr(config, "name", slug), FieldOr(config, "description", ""),
                FieldOr(config, "roleDefinition", ""), FieldOr(config, "whenToUse", ""), FieldOr(config, "customInstructions", ""))
  }

  function AgentPath(dir: Path, slug: string): Path {
    Join(dir, slug + YamlSuffix)
  }

  /** `loadAgent(slug)`; a read failure is reported with the text `readError` gives for the path. */
  function LoadAgent(fs: map<Path, Node>, cwd: Path, moduleDir: Path, slug: string,
                     parse: string -> Result<Yaml, string>, readError: Path -> string): Result<AgentConfig, LoadError>
  {
    var dir := AgentsDir(fs, cwd, moduleDir);
    if dir.Failure? then Failure(dir.error)
    else
      var path := AgentPath(dir.value, slug);
      if path !in fs then Failure(NotFound(slug))
      else if fs[path].Dir? then Failure(ReadFailed(readError(path)))
      else
        var parsed := parse(fs[path].content);
        if parsed.Failure? then Failure(ParseFailed(parsed.error))
        else
          var config := ModeConfig(parsed.value);
          if config.Failure? then Failure(config.error)
          else Success(ConfigOf(config.value, slug))
  }

  /**
   * Loading fails for want of an agents directory exactly when neither
   * directory exists, and with "not found" exactly when there is one but it
   * has no `<slug>.yaml`.
   */
  lemma LoadAgentErrors(fs: map<Path, Node>, cwd: Path, moduleDir: Path, slug: string,
                        parse: string -> Result<Yaml, string>, readError: Path -> string)
    ensures var r := LoadAgent(fs, cwd, moduleDir, slug, parse, readError);
      && (r == Failure(NoAgentsDir) <==> ProjectAgentsDir(cwd) !in fs && BundledAgentsDir(moduleDir) !in fs)
      && (r.Failure? && r.error.NotFound? <==>
            AgentsDir(fs, cwd, moduleDir).Success? && AgentPath(AgentsDir(fs, cwd, moduleDir).value, slug) !in fs)
      && (r.Failure? && r.error.NotFound? ==> r.error.slug == slug)
  {
  }

  /**
   * A loaded agent takes its fields from the first `customModes` entry when
   * that entry is truthy, else from the document itself; a missing or empty
   * `slug` or `name` is the requested slug, and the other four fields default
   * to "".
   */
  lemma LoadAgentDefaults(fs: map<Path, Node>, cwd: Path, moduleDir: Path, slug: string,
                          parse: string -> Result<Yaml, string>, readError: Path -> string)
    requires LoadAgent(fs, cwd, moduleDir, slug, parse, readError).Success?
    ensures var a := LoadAgent(fs, cwd, moduleDir, slug, parse, readError).value;
      var path := AgentPath(AgentsDir(fs, cwd, moduleDir).value, slug);
      && fs[path].File? && parse(fs[path].content).Success?
      && var parsed := parse(fs[path].content).value;
      && var modes := if parsed.Mapping? && parsed.customModes.Some? then parsed.customModes.value else [];
      && var config := if |modes| > 0 && Truthy(modes[0]) then modes[0] else parsed;
      && a.slug == (if HasField(config, "slug") then config.fields["slug"] else slug)
      && a.name == (if HasField(config, "name") then config.fields["name"] else slug)
      && a.description == (if HasField(config, "description") then config.fields["description"] else "")
      && a.roleDefinition == (if HasField(config, "roleDefinition") then config.fields["roleDefinition"] else "")
      && a.whenToUse == (if HasField(config, "whenToUse") then config.fields["whenToUse"] else "")
      && a.customInstructions == (if HasField(config, "customInstructions") then config.fields["customInstructions"] else "")
  {
  }

  // ---------------------------------------------------------------------
  // The agent list
  // ---------------------------------------------------------------------

  /** The listing's names that end in ".yaml", in listing order. */
  function YamlFiles(listing: seq<string>): (files: seq<string>)
    ensures forall f :: f in files <==> f in listing && EndsWith(f, YamlSuffix)
    ensures |files| <= |listing|
  {
    if listing == [] then []
    else (if EndsWith(listing[0], YamlSuffix) then [listing[0]] else []) + YamlFiles(listing[1..])
  }

  /**
   * The filter keeps listing order and multiplicity: the ".yaml" files of two
   * listings joined are those of the first followed by those of the second.
   */
  lemma {:induction false} YamlFilesAppend(a: seq<string>, b: seq<string>)
    ensures YamlFiles(a + b) == YamlFiles(a) + YamlFiles(b)
    decreases |a|
  {
    if a == [] {
      assert a + b == b;
    } else {
      assert (a + b)[1..] == a[1..] + b;
      YamlFilesAppend(a[1..], b);
    }
  }

  /** `file.replace('.yaml', '')` */
  function Stem(file: string): string {
    ReplaceFirst(file, YamlSuffix, "")
  }

  /** The list entry of one file, or `None` when reading or parsing it throws (the file is skipped). */
  function Entry(fs: map<Path, Node>, dir: Path, file: string, parse: string -> Result<Yaml, string>): Option<AgentSummary> {
    var path := Join(dir, file);
    if path !in fs || fs[path].Dir? then None
    else
      var parsed := parse(fs[path].content);
      if parsed.Failure? then None
      else
        var config := ModeConfig(parsed.value);
        if config.Failure? then None
        else Some(AgentSummary(FieldOr(config.value, "slug", Stem(file)), FieldOr(config.value, "name", Stem(file))))
  }

  /** The entries of `files` that load, in order. */
  function Collect(fs: map<Path, Node>, dir: Path, files: seq<string>, parse: string -> Result<Yaml, string>): (agents: seq<AgentSummary>)
    ensures |agents| <= |files|
    decreases |files|
  {
    if files == [] then []
    else
      var last := Entry(fs, dir, files[|files| - 1], parse);
      Collect(fs, dir, files[..|files| - 1], parse) + (if last.Some? then [last.value] else [])
  }

  /** Code-point order on strings: a prefix comes first, else the first differing character decides. */
  predicate StrLe(a: string, b: string) {
    a == [] || (b != [] && (a[0] < b[0] || (a[0] == b[0] && StrLe(a[1..], b[1..]))))
  }

  lemma {:induction false} StrLeTotal(a: string, b: string)
    ensures StrLe(a, b) || StrLe(b, a)
  {
    if a != [] && b != [] && a[0] == b[0] {
      StrLeTotal(a[1..], b[1..]);
    }
  }

  lemma {:induction false} StrLeTrans(a: string, b: string, c: string)
    requires StrLe(a, b) && StrLe(b, c)
    ensures StrLe(a, c)
  {
    if a != [] && b != [] && c != [] && a[0] == b[0] == c[0] {
      StrLeTrans(a[1..], b[1..], c[1..]);
    }
  }

  predicate SortedBySlug(s: seq<AgentSummary>) {
    forall i, j :: 0 <= i < j < |s| ==> StrLe(s[i].slug, s[j].slug)
  }

  /** `x` placed before the first entry it does not come after. */
  function Insert(x: AgentSummary, s: seq<AgentSummary>): (r: seq<AgentSummary>)
    ensures multiset(r) == multiset(s) + multiset{x}
    ensures SortedBySlug(s) ==> SortedBySlug(r)
  {
    if s == [] then [x]
    else if StrLe(x.slug, s[0].slug) then
      InsertFrontSorted(x, s);
      [x] + s
    else
      var rest := Insert(x, s[1..]);
      StrLeTotal(x.slug, s[0].slug);
      InsertLaterSorted(x, s, rest);
      assert s == [s[0]] + s[1..];
      [s[0]] + rest
  }

  lemma InsertFrontSorted(x: AgentSummary, s: seq<AgentSummary>)
    requires s != [] && StrLe(x.slug, s[0].slug)
    ensures SortedBySlug(s) ==> SortedBySlug([x] + s)
  {
    if SortedBySlug(s) {
      forall j | 0 < j < |[x] + s| ensures StrLe(([x] + s)[0].slug, ([x] + s)[j].slug) {
        if j > 1 {
          StrLeTrans(x.slug, s[0].slug, s[j - 1].slug);
        }
      }
    }
  }

  lemma InsertLaterSorted(x: AgentSummary, s: seq<AgentSummary>, rest: seq<AgentSummary>)
    requires s != [] && StrLe(s[0].slug, x.slug)
    requires multiset(rest) == multiset(s[1..]) + multiset{x}
    requires SortedBySlug(s[1..]) ==> SortedBySlug(rest)
    ensures SortedBySlug(s) ==> SortedBySlug([s[0]] + rest)
  {
    if SortedBySlug(s) {
      assert SortedBySlug(s[1..]);
      forall j | 0 <= j < |rest| ensures StrLe(s[0].slug, rest[j].slug) {
        assert rest[j] in multiset(rest);
        assert rest[j] in multiset(s[1..]) + multiset{x};
        if rest[j] != x {
          assert rest[j] in s[1..];
        }
      }
    }
  }

  /** `agents.sort((a, b) => a.slug.localeCompare(b.slug))`, with code-point order for the comparison. */
  function SortBySlug(s: seq<AgentSummary>): (r: seq<AgentSummary>)
    ensures multiset(r) == multiset(s)
    ensures SortedBySlug(r)
  {
    if s == [] then []
    else
      assert s == [s[0]] + s[1..];
      Insert(s[0], SortBySlug(s[1..]))
  }

  /** Sequences with the same multiset have the same members. */
  lemma SameMembers<T>(a: seq<T>, b: seq<T>)
    requires multiset(a) == multiset(b)
    ensures forall x :: x in a <==> x in b
  {
    forall x ensures x in a <==> x in b {
      assert x in a <==> x in multiset(a);
      assert x in b <==> x in multiset(b);
    }
  }

  /** `listAgents()` over the agents directory's listing. */
  function ListSpec(fs: map<Path, Node>, cwd: Path, moduleDir: Path, listing: seq<string>,
                    parse: string -> Result<Yaml, string>, readError: Path -> string): Result<seq<AgentSummary>, LoadError>
  {
    var dir := AgentsDir(fs, cwd, moduleDir);
    if dir.Failure? then Failure(dir.error)
    else if fs[dir.value].File? then Failure(ReadFailed(readError(dir.value)))
    else Success(SortBySlug(Collect(fs, dir.value, YamlFiles(listing), parse)))
  }

  /** `listAgents()`: reads each ".yaml" file in turn, skipping those that throw, then sorts. */
  method ListAgents(fs: map<Path, Node>, cwd: Path, moduleDir: Path, listing: seq<string>,
                    parse: string -> Result<Yaml, string>, readError: Path -> string)
    returns (r: Result<seq<AgentSummary>, LoadError>)
    ensures r == ListSpec(fs, cwd, moduleDir, listing, parse, readError)
  {
    var dir := AgentsDir(fs, cwd, moduleDir);
    if dir.Failure? {
      return Failure(dir.error);
    }
    if fs[dir.value].File? {
      return Failure(ReadFailed(readError(dir.value)));
    }
    var files := YamlFiles(listing);
    var agents: seq<AgentSummary> := [];
    for i := 0 to |files|
      invariant agents == Collect(fs, dir.value, files[..i], parse)
    {
      CollectStep(fs, dir.value, files, i, parse);
      var path := Join(dir.value, files[i]);
      if path in fs && fs[path].File? {
        var parsed := parse(fs[path].content);
        if parsed.Success? {
          var config := ModeConfig(parsed.value);
          if config.Success? {
            var stem := Stem(files[i]);
            agents := agents + [AgentSummary(FieldOr(config.value, "slug", stem), FieldOr(config.value, "name", stem))];
          }
        }
      }
    }
    assert files[..|files|] == files;
    return Success(SortBySlug(agents));
  }

  /** One more file adds its entry, if it loads. */
  lemma CollectStep(fs: map<Path, Node>, dir: Path, files: seq<string>, i: nat, parse: string -> Result<Yaml, string>)
    requires i < |files|
    ensures var e := Entry(fs, dir, files[i], parse);
      Collect(fs, dir, files[..i + 1], parse) == Collect(fs, dir, files[..i], parse) + (if e.Some? then [e.value] else [])
  {
    assert files[..i + 1][..i] == files[..i];
  }

  /** The entries collected are exactly those of the files that load, each once per file. */
  lemma {:induction false} CollectMembers(fs: map<Path, Node>, dir: Path, files: seq<string>, parse: string -> Result<Yaml, string>)
    ensures forall a :: a in Collect(fs, dir, files, parse) <==> exists f :: f in files && Entry(fs, dir, f, parse) == Some(a)
    decreases |files|
  {
    if files != [] {
      var init := files[..|files| - 1];
      CollectMembers(fs, dir, init, parse);
      assert files == init + [files[|files| - 1]];
    }
  }

  /** Counting the files that load. */
  function Loading(fs: map<Path, Node>, dir: Path, files: seq<string>, parse: string -> Result<Yaml, string>): nat
    decreases |files|
  {
    if files == [] then 0
    else Loading(fs, dir, files[..|files| - 1], parse) + (if Entry(fs, dir, files[|files| - 1], parse).Some? then 1 else 0)
  }

  lemma {:induction false} CollectCount(fs: map<Path, Node>, dir: Path, files: seq<string>, parse: string -> Result<Yaml, string>)
    ensures |Collect(fs, dir, files, parse)| == Loading(fs, dir, files, parse)
    decreases |files|
  {
    if files != [] {
      CollectCount(fs, dir, files[..|files| - 1], parse);
    }
  }

  /**
   * The list holds one entry per ".yaml" file that loads — files that fail
   * to read or parse are skipped — and nothing else; it is sorted by slug.
   */
  lemma ListAgentsContents(fs: map<Path, Node>, cwd: Path, moduleDir: Path, listing: seq<string>,
                           parse: string -> Result<Yaml, string>, readError: Path -> string)
    requires ListSpec(fs, cwd, moduleDir, listing, parse, readError).Success?
    ensures var dir := AgentsDir(fs, cwd, moduleDir).value;
      var r := ListSpec(fs, cwd, moduleDir, listing, parse, readError).value;
      && SortedBySlug(r)
      && multiset(r) == multiset(Collect(fs, dir, YamlFiles(listing), parse))
      && |r| == Loading(fs, dir, YamlFiles(listing), parse) <= |YamlFiles(listing)|
      && forall a :: a in r <==> exists f :: f in listing && EndsWith(f, YamlSuffix) && Entry(fs, dir, f, parse) == Some(a)
  {
    var dir := AgentsDir(fs, cwd, moduleDir).value;
    var collected := Collect(fs, dir, YamlFiles(listing), parse);
    CollectMembers(fs, dir, YamlFiles(listing), parse);
    CollectCount(fs, dir, YamlFiles(listing), parse);
    SameMembers(SortBySlug(collected), collected);
  }

  /**
   * A file whose mode entry has no slug (or name) is listed under its file
   * name without ".yaml"; for a name ending in ".yaml" once, that is the
   * name with the suffix removed.
   */
  lemma EntryDefaultsToStem(fs: map<Path, Node>, dir: Path, stem: string, parse: string -> Result<Yaml, string>)
    requires !Contains(stem, YamlSuffix)
    requires Entry(fs, dir, stem + YamlSuffix, parse).Some?
    ensures var path := Join(dir, stem + YamlSuffix);
      var config := ModeConfig(parse(fs[path].content).value).value;
      var a := Entry(fs, dir, stem + YamlSuffix, parse).value;
      && (!HasField(config, "slug") ==> a.slug == stem)
      && (!HasField(config, "name") ==> a.name == stem)
  {
    assert forall k :: 0 < k < |YamlSuffix| ==> YamlSuffix[k] != '.';
    StripAppendedPattern(stem, YamlSuffix);
  }

  // ---------------------------------------------------------------------
  // The prompt
  // ---------------------------------------------------------------------

  const Separator: string := "\n\n---\n\n"

  /** The fixed closing section of every prompt. */
  const ExecutionMode: string :=
    "## EXECUTION MODE\n\n"
    + "You are running as a Gemini CLI agent in YOLO mode.\n"
    + "- All actions are auto-approved\n"
    + "- Work autonomously and efficiently\n"
    + "- Commit your changes when done\n"
    + "- Use clear commit messages\n\n"
    + "START NOW.\n"

  /** `buildAgentPrompt(agent, task)` */
  function BuildAgentPrompt(agent: AgentConfig, task: string): string {
    Sections(agent.name, agent.roleDefinition, agent.customInstructions, task, ExecutionMode)
  }

  /** The prompt's sections around whatever closing section follows the task. */
  function Sections(name: string, role: string, instructions: string, task: string, closing: string): string {
    "# " + name + "\n\n" + role + Separator + instructions + Separator + "## YOUR TASK\n\n" + task + Separator + closing
  }

  /**
   * The prompt opens with the agent's name as a heading, holds the role
   * definition, the custom instructions and the task at these offsets, in
   * this order, and ends with the execution-mode section.
   */
  lemma PromptLayout(agent: AgentConfig, task: string)
    ensures var p := BuildAgentPrompt(agent, task);
      var role := |agent.name| + 4;
      var instructions := role + |agent.roleDefinition| + 7;
      var taskAt := instructions + |agent.customInstructions| + 21;
      && StartsWith(p, "# " + agent.name + "\n")
      && OccursAt(p, agent.roleDefinition, role)
      && OccursAt(p, agent.customInstructions, instructions)
      && OccursAt(p, task, taskAt)
      && role + |agent.roleDefinition| <= instructions
      && instructions + |agent.customInstructions| <= taskAt
      && EndsWith(p, ExecutionMode)
      && |p| == taskAt + |task| + 7 + |ExecutionMode|
  {
    SectionsLayout(agent.name, agent.roleDefinition, agent.customInstructions, task, ExecutionMode);
  }

  lemma SectionsLayout(name: string, role: string, instructions: string, task: string, closing: string)
    ensures var p := Sections(name, role, instructions, task, closing);
      var roleAt := |name| + 4;
      var instructionsAt := roleAt + |role| + 7;
      var taskAt := instructionsAt + |instructions| + 21;
      && StartsWith(p, "# " + name + "\n")
      && OccursAt(p, role, roleAt)
      && OccursAt(p, instructions, instructionsAt)
      && OccursAt(p, task, taskAt)
      && EndsWith(p, closing)
      && |p| == taskAt + |task| + 7 + |closing|
  {
    var p := Sections(name, role, instructions, task, closing);
    var head := "# " + name + "\n\n";
    var A := head + role + Separator;
    var B := A + instructions + Separator + "## YOUR TASK\n\n";
    assert |head| == |name| + 4 && |Separator| == 7 && |"## YOUR TASK\n\n"| == 14;
    assert p[..|name| + 3] == "# " + name + "\n";
    assert p[|head|..|head| + |role|] == role;
    assert p[|A|..|A| + |instructions|] == instructions;
    assert p[|B|..|B| + |task|] == task;
    assert p[|p| - |closing|..] == closing;
  }
}
