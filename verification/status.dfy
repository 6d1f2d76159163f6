/**
 * The agent status store: every launched agent leaves a JSON record in
 * `<cwd>/.agent-logs/<agent>-status.json`. The store lists that directory,
 * turns each status file into a record (a file that cannot be read or parsed
 * becomes an `error` record instead of an exception), renders the records with
 * summary counts, and polls until no agent is running any more.
 *
 * The directory listing (`readdirSync`, in its own order) is an input, reading
 * uses the filesystem map, and `JSON.parse` is an oracle that yields a value or
 * the text of the error it throws. The value is pushed as it is (`as AgentStatus`
 * checks nothing), so a file holding `null` yields a `null` entry, on which the
 * display and the wait later throw.
 */
module StatusStore {
  import opened Wrappers
  import opened Text
  import opened Paths
  import opened Shell

  /** One status record; `status` is whatever the JSON holds ('running', 'complete', 'error' when written by the tool). */
  datatype AgentStatus = AgentStatus(
    status: string,
    started: Option<string>,
    completed: Option<string>,
    agent: string,
    error: Option<string>)

  /**
   * What `JSON.parse` yields for a status file: `null`, or a value whose fields
   * read as the record `rec`.
   */
  datatype StatusValue = JsonNull | Record(rec: AgentStatus)

  const StatusSuffix: string := "-status.json"

  /** `<cwd>/.agent-logs` */
  function LogsDir(cwd: Path): Path {
    Join(cwd, ".agent-logs")
  }

  /** The entries of a listing that are status files, in listing order. */
  function StatusFiles(listing: seq<string>): (r: seq<string>)
    ensures forall f :: f in r <==> f in listing && EndsWith(f, StatusSuffix)
    ensures |r| <= |listing|
  {
    if listing == [] then []
    else (if EndsWith(listing[0], StatusSuffix) then [listing[0]] else []) + StatusFiles(listing[1..])
  }

  /**
   * The filter keeps listing order and multiplicity: the status files of two
   * listings joined are those of the first followed by those of the second.
   */
  lemma {:induction false} StatusFilesAppend(a: seq<string>, b: seq<string>)
    ensures StatusFiles(a + b) == StatusFiles(a) + StatusFiles(b)
    decreases |a|
  {
    if a == [] {
      assert a + b == b;
    } else {
      assert (a + b)[1..] == a[1..] + b;
      StatusFilesAppend(a[1..], b);
    }
  }

  /** The agent a status file names: the file name with its first "-status.json" removed. */
  function AgentNameOf(file: string): string {
    ReplaceFirst(file, StatusSuffix, "")
  }

  /** The record standing in for a file that could not be read or parsed. */
  function ErrorRecord(file: string, message: string): AgentStatus {
    AgentStatus("error", None, None, AgentNameOf(file), Some(message))
  }

  /** Reading and parsing one status file of `dir`; either failure is caught and becomes an error record. */
  function ReadStatus(fs: map<Path, Node>, dir: Path, file: string,
                      parse: string -> Result<StatusValue, string>, readError: Path -> string): StatusValue
  {
    var p := Join(dir, file);
    if p in fs && fs[p].File? then
      match parse(fs[p].content)
      case Success(value) => value
      case Failure(message) => Record(ErrorRecord(file, message))
    else Record(ErrorRecord(file, readError(p)))
  }

  /**
   * `getAgentStatuses()` run from `cwd`: no logs directory gives no records;
   * a logs path that is not a directory makes `readdirSync` throw, uncaught;
   * otherwise one record per status file, in listing order.
   */
  function Statuses(fs: map<Path, Node>, cwd: Path, listing: seq<string>,
                    parse: string -> Result<StatusValue, string>, readError: Path -> string): Result<seq<StatusValue>, string>
  {
    var dir := LogsDir(cwd);
    if dir !in fs then Success([])
    else if fs[dir].File? then Failure(readError(dir))
    else
      var files := StatusFiles(listing);
      Success(seq(|files|, i requires 0 <= i < |files| => ReadStatus(fs, dir, files[i], parse, readError)))
  }

  /** The loop of `getAgentStatuses`, pushing one record per status file. */
  method GetAgentStatuses(fs: map<Path, Node>, cwd: Path, listing: seq<string>,
                          parse: string -> Result<StatusValue, string>, readError: Path -> string)
    returns (r: Result<seq<StatusValue>, string>)
    ensures r == Statuses(fs, cwd, listing, parse, readError)
  {
    var dir := LogsDir(cwd);
    if dir !in fs {
      return Success([]);
    }
    if fs[dir].File? {
      return Failure(readError(dir));
    }
    var files := StatusFiles(listing);
    var statuses: seq<StatusValue> := [];
    for k := 0 to |files|
      invariant |statuses| == k
      invariant forall i :: 0 <= i < k ==> statuses[i] == ReadStatus(fs, dir, files[i], parse, readError)
    {
      var file := files[k];
      var p := Join(dir, file);
      var record: StatusValue;
      if p in fs && fs[p].File? {
        var parsed := parse(fs[p].content);
        if parsed.Success? {
          record := parsed.value;
        } else {
          record := Record(AgentStatus("error", None, None, ReplaceFirst(file, StatusSuffix, ""), Some(parsed.error)));
        }
      } else {
        record := Record(AgentStatus("error", None, None, ReplaceFirst(file, StatusSuffix, ""), Some(readError(p))));
      }
      statuses := statuses + [record];
    }
    assert statuses == seq(|files|, i requires 0 <= i < |files| => ReadStatus(fs, dir, files[i], parse, readError));
    return Success(statuses);
  }

  // ---------------------------------------------------------------------
  // What the listing promises
  // ---------------------------------------------------------------------

  /**
   * No logs directory: no records. Otherwise exactly one entry per name that
   * ends in "-status.json", in listing order, each the file's parsed value (a
   * record or `null`) or an error record naming the agent; the only exception
   * is a logs path that is a file.
   */
  lemma StatusesShape(fs: map<Path, Node>, cwd: Path, listing: seq<string>,
                      parse: string -> Result<StatusValue, string>, readError: Path -> string)
    ensures var r := Statuses(fs, cwd, listing, parse, readError);
      var dir := LogsDir(cwd);
      var files := StatusFiles(listing);
      && (dir !in fs ==> r == Success([]))
      && (r.Failure? <==> dir in fs && fs[dir].File?)
      && (dir in fs && fs[dir].Dir? ==>
            && |r.value| == |files|
            && forall i :: 0 <= i < |files| ==>
                 var p := Join(dir, files[i]);
                 if p in fs && fs[p].File? && parse(fs[p].content).Success? then r.value[i] == parse(fs[p].content).value
                 else r.value[i].Record? && r.value[i].rec.status == "error"
                      && r.value[i].rec.agent == AgentNameOf(files[i]) && r.value[i].rec.error.Some?)
  {
  }

  /** An agent name that does not contain "-status.json" is recovered from its status file name. */
  lemma AgentNameRoundTrip(agent: string)
    requires !Contains(agent, StatusSuffix)
    ensures AgentNameOf(agent + StatusSuffix) == agent
  {
    assert forall k :: 0 < k < |StatusSuffix| ==> StatusSuffix[k] != '-';
    StripAppendedPattern(agent, StatusSuffix);
  }

  /**
   * Whatever the file `<agent>-status.json` holds, the record read from it is
   * either its parsed value or an error record for that same agent.
   */
  lemma ReadStatusNamesAgent(fs: map<Path, Node>, dir: Path, agent: string,
                             parse: string -> Result<StatusValue, string>, readError: Path -> string)
    requires !Contains(agent, StatusSuffix)
    ensures var file := agent + StatusSuffix;
      var r := ReadStatus(fs, dir, file, parse, readError);
      var p := Join(dir, file);
      || (p in fs && fs[p].File? && parse(fs[p].content) == Success(r))
      || (r.Record? && r.rec.status == "error" && r.rec.agent == agent)
  {
    AgentNameRoundTrip(agent);
  }

  // ---------------------------------------------------------------------
  // Display and summary counts
  // ---------------------------------------------------------------------

  /** Number of records whose status is exactly `status` (`statuses.filter(...).length`). */
  function Count(s: seq<AgentStatus>, status: string): (n: nat)
    ensures n <= |s|
  {
    if s == [] then 0 else (if s[0].status == status then 1 else 0) + Count(s[1..], status)
  }

  /** No record has the status exactly when the count is zero. */
  lemma {:induction false} CountZeroIff(s: seq<AgentStatus>, status: string)
    ensures Count(s, status) == 0 <==> forall i :: 0 <= i < |s| ==> s[i].status != status
  {
    if s != [] {
      CountZeroIff(s[1..], status);
      assert forall i :: 1 <= i < |s| ==> s[i] == s[1..][i - 1];
    }
  }

  /** The complete and running counts never exceed the number of records. */
  lemma {:induction false} CountsBounded(s: seq<AgentStatus>)
    ensures Count(s, "complete") + Count(s, "running") <= |s|
  {
    if s != [] {
      CountsBounded(s[1..]);
    }
  }

  const Escape: char := '\U{1B}'
  const ColourReset: string := [Escape] + "[0m"

  function Icon(status: string): (r: string)
    ensures r == "[...]" <==> status == "running"
    ensures r == "[OK]" <==> status == "complete"
    ensures r == "[ERR]" <==> status != "running" && status != "complete"
  {
    if status == "running" then "[...]" else if status == "complete" then "[OK]" else "[ERR]"
  }

  /** ANSI colour: yellow while running, green when complete, red otherwise. */
  function Colour(status: string): string {
    if status == "running" then [Escape] + "[33m"
    else if status == "complete" then [Escape] + "[32m"
    else [Escape] + "[31m"
  }

  /** JavaScript truthiness of an optional string field. */
  predicate Truthy(o: Option<string>) {
    o.Some? && o.value != ""
  }

  /** The lines printed for one record: the coloured headline, then the detail lines of truthy fields. */
  function RecordLines(r: AgentStatus): seq<string> {
    ["  " + Colour(r.status) + Icon(r.status) + " " + r.agent + " - " + r.status + ColourReset]
    + (if Truthy(r.started) then ["       Started: " + r.started.value] else [])
    + (if Truthy(r.completed) then ["       Completed: " + r.completed.value] else [])
    + (if Truthy(r.error) then ["       Error: " + r.error.value] else [])
  }

  function AllRecordLines(s: seq<AgentStatus>): seq<string> {
    if s == [] then [] else RecordLines(s[0]) + AllRecordLines(s[1..])
  }

  const Rule: string := "==========================================="
  // Written as two literals: the verifier sees the characters of a literal only when it is short.
  const NoAgentsLine: string := "  No agents running." + " Use `vibecode spawn` to start one."

  function SummaryLine(s: seq<AgentStatus>): string {
    "Summary: " + IntToString(Count(s, "complete")) + "/" + IntToString(|s|) + " complete, "
    + IntToString(Count(s, "running")) + " running"
  }

  /** The banner `displayStatuses` prints first, with the locale time string as an input. */
  function Header(time: string): seq<string> {
    ["", Rule, " VIBECODE AGENT STATUS", " " + time, Rule, ""]
  }

  /** The records before the first `null` entry: as far as the display loop gets. */
  function LeadingRecords(s: seq<StatusValue>): seq<AgentStatus> {
    if s == [] || s[0].JsonNull? then [] else [s[0].rec] + LeadingRecords(s[1..])
  }

  predicate HasNull(s: seq<StatusValue>) {
    exists i :: 0 <= i < |s| && s[i].JsonNull?
  }

  /** The leading records are the entries up to the first `null`, and all of them when there is none. */
  lemma {:induction false} LeadingRecordsFacts(s: seq<StatusValue>)
    ensures |LeadingRecords(s)| <= |s|
    ensures forall i :: 0 <= i < |LeadingRecords(s)| ==> s[i] == Record(LeadingRecords(s)[i])
    ensures |LeadingRecords(s)| == |s| <==> !HasNull(s)
    ensures |LeadingRecords(s)| < |s| ==> s[|LeadingRecords(s)|].JsonNull?
  {
    if s != [] {
      if s[0].JsonNull? {
        assert HasNull(s);
      } else {
        var tail := s[1..];
        LeadingRecordsFacts(tail);
        if HasNull(s) {
          var i :| 0 <= i < |s| && s[i].JsonNull?;
          assert tail[i - 1] == s[i];
        }
        if HasNull(tail) {
          var i :| 0 <= i < |tail| && tail[i].JsonNull?;
          assert s[i + 1] == tail[i];
        }
      }
    }
  }

  /** What `displayStatuses` prints, and whether it ends by throwing. */
  datatype Printout = Printout(lines: seq<string>, threw: bool)

  /**
   * `displayStatuses(statuses)`, with the locale time string it prints as an
   * input. Reading `status` of a `null` entry throws a TypeError, after the
   * lines of the records before it.
   */
  function Display(s: seq<StatusValue>, time: string): Printout {
    var records := LeadingRecords(s);
    if |s| == 0 then Printout(Header(time) + [NoAgentsLine, ""], false)
    else if HasNull(s) then Printout(Header(time) + AllRecordLines(records), true)
    else Printout(Header(time) + AllRecordLines(records) + ["", SummaryLine(records), ""], false)
  }

  predicate IsSummaryLine(line: string) {
    StartsWith(line, "Summary: ")
  }

  /** Every record line is indented, and its third character is a colour escape or a blank. */
  predicate Indented(line: string) {
    |line| > 2 && line[0] == ' ' && (line[2] == ' ' || line[2] == Escape)
  }

  lemma RecordIndented(r: AgentStatus)
    ensures forall l :: l in RecordLines(r) ==> Indented(l)
  {
    var head := "  " + Colour(r.status) + Icon(r.status) + " " + r.agent + " - " + r.status + ColourReset;
    assert head == "  " + (Colour(r.status) + Icon(r.status) + " " + r.agent + " - " + r.status + ColourReset);
    assert Colour(r.status)[0] == Escape;
    assert head[2] == Escape;
  }

  lemma {:induction false} RecordLinesIndented(s: seq<AgentStatus>)
    ensures forall l :: l in AllRecordLines(s) ==> Indented(l)
  {
    if s != [] {
      RecordLinesIndented(s[1..]);
      RecordIndented(s[0]);
    }
  }

  /** A record line is never taken for the summary line. */
  lemma IndentedIsNotSummary(line: string)
    requires Indented(line)
    ensures !IsSummaryLine(line)
  {
  }

  lemma HeaderLines(time: string)
    ensures forall l :: l in Header(time) ==> !IsSummaryLine(l)
  {
    assert (" " + time)[0] == ' ';
    assert Rule[0] == '=';
    assert " VIBECODE AGENT STATUS"[0] == ' ';
  }

  /**
   * The display throws exactly when an entry is `null`; the summary line is
   * printed exactly when there are entries and none is `null`; the
   * "No agents running" message (after the banner) exactly when there are none.
   */
  lemma DisplaySummaryIffAgents(s: seq<StatusValue>, time: string)
    ensures Display(s, time).threw <==> HasNull(s)
    ensures (exists l :: l in Display(s, time).lines && IsSummaryLine(l)) <==> |s| > 0 && !HasNull(s)
    ensures NoAgentsLine in Display(s, time).lines[|Header(time)|..] <==> |s| == 0
  {
    if |s| == 0 {
      EmptyDisplay(s, time);
    } else if HasNull(s) {
      NullEntryCrashesDisplay(s, time);
    } else {
      NonEmptyDisplay(s, time);
    }
  }

  /** With no records: no summary line anywhere, and the message right after the banner. */
  lemma EmptyDisplay(s: seq<StatusValue>, time: string)
    requires |s| == 0
    ensures !Display(s, time).threw
    ensures forall l :: l in Display(s, time).lines ==> !IsSummaryLine(l)
    ensures Display(s, time).lines[|Header(time)|..] == [NoAgentsLine, ""]
  {
    HeaderLines(time);
    NoAgentsLineShape();
  }

  /**
   * With records and no `null` among them: the display completes, the summary
   * line counts every entry, and the no-agents message is not printed.
   */
  lemma NonEmptyDisplay(s: seq<StatusValue>, time: string)
    requires |s| > 0 && !HasNull(s)
    ensures !Display(s, time).threw
    ensures |LeadingRecords(s)| == |s|
    ensures SummaryLine(LeadingRecords(s)) in Display(s, time).lines && IsSummaryLine(SummaryLine(LeadingRecords(s)))
    ensures NoAgentsLine !in Display(s, time).lines[|Header(time)|..]
  {
    var records := LeadingRecords(s);
    LeadingRecordsFacts(s);
    var rest := AllRecordLines(records) + ["", SummaryLine(records), ""];
    DisplayWithoutNull(s, time);
    SummaryLineShape(records);
    RecordsAndSummary(records);
    assert (Header(time) + rest)[|Header(time)|..] == rest;
  }

  /** What follows the banner of a completed display holds the summary line and not the no-agents message. */
  lemma RecordsAndSummary(records: seq<AgentStatus>)
    ensures var rest := AllRecordLines(records) + ["", SummaryLine(records), ""];
      SummaryLine(records) in rest && NoAgentsLine !in rest
  {
    var body := AllRecordLines(records);
    var tail := ["", SummaryLine(records), ""];
    assert tail[1] == SummaryLine(records);
    assert NoAgentsLine !in body by {
      RecordLinesIndented(records);
      NoAgentsLineShape();
    }
    assert NoAgentsLine !in tail by {
      NoAgentsLineShape();
      SummaryLineShape(records);
      assert NoAgentsLine[0] != SummaryLine(records)[0];
    }
  }

  /** The display of entries with no `null` among them, and at least one: banner, record lines, summary. */
  lemma DisplayWithoutNull(s: seq<StatusValue>, time: string)
    requires |s| > 0 && !HasNull(s)
    ensures Display(s, time)
         == Printout(Header(time) + AllRecordLines(LeadingRecords(s)) + ["", SummaryLine(LeadingRecords(s)), ""], false)
  {
  }

  /**
   * A `null` entry makes the display throw: it has printed the banner and the
   * lines of the records before the first `null`, and neither the summary nor
   * the no-agents message.
   */
  lemma NullEntryCrashesDisplay(s: seq<StatusValue>, time: string)
    requires HasNull(s)
    ensures Display(s, time).threw
    ensures |LeadingRecords(s)| < |s| && s[|LeadingRecords(s)|].JsonNull?
    ensures Display(s, time).lines == Header(time) + AllRecordLines(LeadingRecords(s))
    ensures forall l :: l in Display(s, time).lines ==> !IsSummaryLine(l)
    ensures NoAgentsLine !in Display(s, time).lines[|Header(time)|..]
  {
    var records := LeadingRecords(s);
    LeadingRecordsFacts(s);
    HeaderLines(time);
    RecordLinesIndented(records);
    NoAgentsLineShape();
    var lines := Display(s, time).lines;
    assert lines[|Header(time)|..] == AllRecordLines(records);
    forall l | l in lines
      ensures !IsSummaryLine(l)
    {
      if l !in Header(time) {
        assert l in AllRecordLines(records);
        IndentedIsNotSummary(l);
      }
    }
  }

  lemma SummaryLineShape(s: seq<AgentStatus>)
    ensures IsSummaryLine(SummaryLine(s)) && SummaryLine(s)[0] == 'S'
  {
    assert SummaryLine(s)[..9] == "Summary: ";
  }

  /** The no-agents message is neither a record line nor a summary line, nor blank. */
  lemma NoAgentsLineShape()
    ensures !Indented(NoAgentsLine) && !IsSummaryLine(NoAgentsLine) && NoAgentsLine[0] == ' '
  {
    assert NoAgentsLine[0] == ' ' && NoAgentsLine[2] == 'N';
  }

  // ---------------------------------------------------------------------
  // Waiting for completion
  // ---------------------------------------------------------------------

  /** The watch loop stops on a listing with no running record and at least one record. */
  predicate IsDone(s: seq<AgentStatus>) {
    Count(s, "running") == 0 && |s| > 0
  }

  /** Done means: some records, none of them running. An empty listing is never done. */
  lemma IsDoneIff(s: seq<AgentStatus>)
    ensures IsDone(s) <==> |s| > 0 && forall i :: 0 <= i < |s| ==> s[i].status != "running"
  {
    CountZeroIff(s, "running");
  }

  /** What one check of the watch loop sees: the filesystem and the directory listing at that moment. */
  datatype Observation = Observation(fs: map<Path, Node>, listing: seq<string>)

  /**
   * How the wait ends: resolved with the records of the final check, ended by
   * an exception from a check, or still polling after the last observation.
   * `delays` are the `setTimeout` delays (ms) scheduled before that.
   */
  datatype WaitOutcome =
    | Resolved(statuses: seq<AgentStatus>, delays: seq<int>)
    | Crashed(error: string, delays: seq<int>)
    | StillPolling(delays: seq<int>)

  /** The TypeError a check throws when it reads `status` of a `null` entry. */
  const NullStatusError: string := "TypeError: Cannot read properties of null (reading 'status')"

  function ObservedStatuses(cwd: Path, o: Observation, parse: string -> Result<StatusValue, string>,
                            readError: Path -> string): Result<seq<StatusValue>, string>
  {
    Statuses(o.fs, cwd, o.listing, parse, readError)
  }

  /** The checks from the `k`-th on, after the delays already scheduled. */
  function WaitFrom(cwd: Path, obs: seq<Observation>, parse: string -> Result<StatusValue, string>,
                    readError: Path -> string, intervalSeconds: int, k: nat, delays: seq<int>): WaitOutcome
    requires k <= |obs|
    decreases |obs| - k
  {
    if k == |obs| then StillPolling(delays)
    else
      match ObservedStatuses(cwd, obs[k], parse, readError)
      case Failure(e) => Crashed(e, delays)
      case Success(s) =>
        if HasNull(s) then Crashed(NullStatusError, delays)
        else if IsDone(LeadingRecords(s)) then Resolved(LeadingRecords(s), delays)
        else WaitFrom(cwd, obs, parse, readError, intervalSeconds, k + 1, delays + [intervalSeconds * 1000])
  }

  /** `waitForCompletion(intervalSeconds)` over the successive observations its checks make. */
  function WaitSpec(cwd: Path, obs: seq<Observation>, parse: string -> Result<StatusValue, string>,
                    readError: Path -> string, intervalSeconds: int): WaitOutcome
  {
    WaitFrom(cwd, obs, parse, readError, intervalSeconds, 0, [])
  }

  /** The poll loop: check, stop when done, otherwise schedule the next check. */
  method WaitForCompletion(cwd: Path, obs: seq<Observation>, parse: string -> Result<StatusValue, string>,
                           readError: Path -> string, intervalSeconds: int) returns (outcome: WaitOutcome)
    ensures outcome == WaitSpec(cwd, obs, parse, readError, intervalSeconds)
  {
    var delays: seq<int> := [];
    var k := 0;
    while k < |obs|
      invariant k <= |obs|
      invariant WaitSpec(cwd, obs, parse, readError, intervalSeconds)
             == WaitFrom(cwd, obs, parse, readError, intervalSeconds, k, delays)
    {
      var statuses := GetAgentStatuses(obs[k].fs, cwd, obs[k].listing, parse, readError);
      if statuses.Failure? {
        return Crashed(statuses.error, delays);
      }
      if HasNull(statuses.value) {
        // `displayStatuses` reads `status` of the `null` entry
        return Crashed(NullStatusError, delays);
      }
      var records := LeadingRecords(statuses.value);
      if Count(records, "running") == 0 && |records| > 0 {
        return Resolved(records, delays);
      }
      delays := delays + [intervalSeconds * 1000];
      k := k + 1;
    }
    return StillPolling(delays);
  }

  /** A check that listed records, none of them `null`, some still running (or none at all). */
  predicate Pending(cwd: Path, o: Observation, parse: string -> Result<StatusValue, string>, readError: Path -> string) {
    var r := ObservedStatuses(cwd, o, parse, readError);
    r.Success? && !HasNull(r.value) && !IsDone(LeadingRecords(r.value))
  }

  /** A check that ended the wait with these records. */
  predicate Finished(cwd: Path, o: Observation, parse: string -> Result<StatusValue, string>, readError: Path -> string,
                     statuses: seq<AgentStatus>) {
    var r := ObservedStatuses(cwd, o, parse, readError);
    r.Success? && !HasNull(r.value) && LeadingRecords(r.value) == statuses && IsDone(statuses)
  }

  /** A check that threw this error: the listing failed, or an entry was `null`. */
  predicate Threw(cwd: Path, o: Observation, parse: string -> Result<StatusValue, string>, readError: Path -> string,
                  error: string) {
    var r := ObservedStatuses(cwd, o, parse, readError);
    (r.Failure? && r.error == error) || (r.Success? && HasNull(r.value) && error == NullStatusError)
  }

  /** All scheduled delays are the interval in milliseconds. */
  predicate Uniform(delays: seq<int>, intervalSeconds: int) {
    forall i :: 0 <= i < |delays| ==> delays[i] == intervalSeconds * 1000
  }

  lemma {:induction false} WaitFromFacts(cwd: Path, obs: seq<Observation>, parse: string -> Result<StatusValue, string>,
                                         readError: Path -> string, intervalSeconds: int, k: nat, delays: seq<int>)
    requires k <= |obs| && |delays| == k && Uniform(delays, intervalSeconds)
    requires forall j :: 0 <= j < k ==> Pending(cwd, obs[j], parse, readError)
    ensures var out := WaitFrom(cwd, obs, parse, readError, intervalSeconds, k, delays);
      && Uniform(out.delays, intervalSeconds)
      && (forall j :: 0 <= j < |out.delays| && j < |obs| ==> Pending(cwd, obs[j], parse, readError))
      && (out.StillPolling? ==> |out.delays| == |obs|)
      && (out.Resolved? ==> |out.delays| < |obs| && Finished(cwd, obs[|out.delays|], parse, readError, out.statuses))
      && (out.Crashed? ==> |out.delays| < |obs| && Threw(cwd, obs[|out.delays|], parse, readError, out.error))
    decreases |obs| - k
  {
    if k < |obs| {
      var r := ObservedStatuses(cwd, obs[k], parse, readError);
      if r.Success? && !HasNull(r.value) && !IsDone(LeadingRecords(r.value)) {
        WaitFromFacts(cwd, obs, parse, readError, intervalSeconds, k + 1, delays + [intervalSeconds * 1000]);
      }
    }
  }

  /**
   * The wait resolves with the records of the first check that found some
   * records, none `null` and none running; it ends in an exception at the first
   * check whose listing fails or holds a `null` entry; every earlier check found
   * records still running (or none at all) and rescheduled after
   * `intervalSeconds * 1000` ms.
   */
  lemma WaitResolvesOnFirstDone(cwd: Path, obs: seq<Observation>, parse: string -> Result<StatusValue, string>,
                                readError: Path -> string, intervalSeconds: int)
    ensures var out := WaitSpec(cwd, obs, parse, readError, intervalSeconds);
      && Uniform(out.delays, intervalSeconds)
      && (forall j :: 0 <= j < |out.delays| && j < |obs| ==> Pending(cwd, obs[j], parse, readError))
      && (out.StillPolling? ==> |out.delays| == |obs|)
      && (out.Resolved? ==> |out.delays| < |obs| && Finished(cwd, obs[|out.delays|], parse, readError, out.statuses))
      && (out.Crashed? ==> |out.delays| < |obs| && Threw(cwd, obs[|out.delays|], parse, readError, out.error))
  {
    WaitFromFacts(cwd, obs, parse, readError, intervalSeconds, 0, []);
  }

  // ---------------------------------------------------------------------
  // A status file holding `null`
  // ---------------------------------------------------------------------

  /**
   * One status file holding `null`: the listing succeeds with a `null` entry
   * where an error record was meant, the display throws before any summary,
   * and the first check of the wait ends in an exception.
   */
  lemma NullFileCrashesWatch(cwd: Path, parse: string -> Result<StatusValue, string>, readError: Path -> string,
                             time: string, intervalSeconds: int)
    requires parse("null") == Success(JsonNull)
    ensures var fs := map[LogsDir(cwd) := Dir, Join(LogsDir(cwd), "a-status.json") := File("null")];
      var listing := ["a-status.json"];
      && Statuses(fs, cwd, listing, parse, readError) == Success([JsonNull])
      && Display([JsonNull], time).threw
      && WaitSpec(cwd, [Observation(fs, listing)], parse, readError, intervalSeconds) == Crashed(NullStatusError, [])
  {
    var fs := map[LogsDir(cwd) := Dir, Join(LogsDir(cwd), "a-status.json") := File("null")];
    var listing := ["a-status.json"];
    assert |Join(LogsDir(cwd), "a-status.json")| != |LogsDir(cwd)|;
    assert EndsWith("a-status.json", StatusSuffix);
    assert StatusFiles(listing) == ["a-status.json"];
    assert ReadStatus(fs, LogsDir(cwd), "a-status.json", parse, readError) == JsonNull;
    var files := StatusFiles(listing);
    var entries := seq(|files|, i requires 0 <= i < |files| => ReadStatus(fs, LogsDir(cwd), files[i], parse, readError));
    assert fs[LogsDir(cwd)] == Dir;
    assert Statuses(fs, cwd, listing, parse, readError) == Success(entries);
    assert |entries| == 1 && entries[0] == JsonNull;
    assert entries == [JsonNull];
    assert HasNull([JsonNull]) by {
      assert [JsonNull][0].JsonNull?;
    }
    assert ObservedStatuses(cwd, Observation(fs, listing), parse, readError) == Success([JsonNull]);
    assert [Observation(fs, listing)][0] == Observation(fs, listing);
  }

  const NotARecord: string := "status file does not hold a record"

  /** The evidently intended reading: a file holding `null` is unusable like any other and becomes an error record. */
  function ReadStatusChecked(fs: map<Path, Node>, dir: Path, file: string,
                             parse: string -> Result<StatusValue, string>, readError: Path -> string): StatusValue
  {
    match ReadStatus(fs, dir, file, parse, readError)
    case JsonNull => Record(ErrorRecord(file, NotARecord))
    case Record(r) => Record(r)
  }

  /** `getAgentStatuses()` with the intended reading. */
  function StatusesChecked(fs: map<Path, Node>, cwd: Path, listing: seq<string>,
                           parse: string -> Result<StatusValue, string>, readError: Path -> string): Result<seq<StatusValue>, string>
  {
    var dir := LogsDir(cwd);
    if dir !in fs then Success([])
    else if fs[dir].File? then Failure(readError(dir))
    else
      var files := StatusFiles(listing);
      Success(seq(|files|, i requires 0 <= i < |files| => ReadStatusChecked(fs, dir, files[i], parse, readError)))
  }

  /**
   * With the intended reading, the listing fails exactly when the code's
   * does; it keeps every record the code reads, turns each `null` into an
   * error record for that file's agent, and the display never throws.
   */
  lemma CheckedStatusesNeverThrow(fs: map<Path, Node>, cwd: Path, listing: seq<string>,
                                  parse: string -> Result<StatusValue, string>, readError: Path -> string, time: string)
    ensures var fixed := StatusesChecked(fs, cwd, listing, parse, readError);
      var asWritten := Statuses(fs, cwd, listing, parse, readError);
      && (fixed.Failure? <==> asWritten.Failure?)
      && (fixed.Failure? ==> fixed.error == asWritten.error)
      && (fixed.Success? ==>
            && !HasNull(fixed.value)
            && !Display(fixed.value, time).threw
            && |fixed.value| == |asWritten.value|
            && forall i :: 0 <= i < |fixed.value| ==>
                 if asWritten.value[i].Record? then fixed.value[i] == asWritten.value[i]
                 else fixed.value[i] == Record(ErrorRecord(StatusFiles(listing)[i], NotARecord)))
  {
    var fixed := StatusesChecked(fs, cwd, listing, parse, readError);
    if fixed.Success? {
      DisplaySummaryIffAgents(fixed.value, time);
    }
  }

  /** `waitForCompletion` over the intended reading: the same loop, each check reading with `StatusesChecked`. */
  function WaitFromChecked(cwd: Path, obs: seq<Observation>, parse: string -> Result<StatusValue, string>,
                           readError: Path -> string, intervalSeconds: int, k: nat, delays: seq<int>): WaitOutcome
    requires k <= |obs|
    decreases |obs| - k
  {
    if k == |obs| then StillPolling(delays)
    else
      match StatusesChecked(obs[k].fs, cwd, obs[k].listing, parse, readError)
      case Failure(e) => Crashed(e, delays)
      case Success(s) =>
        if HasNull(s) then Crashed(NullStatusError, delays)
        else if IsDone(LeadingRecords(s)) then Resolved(LeadingRecords(s), delays)
        else WaitFromChecked(cwd, obs, parse, readError, intervalSeconds, k + 1, delays + [intervalSeconds * 1000])
  }

  /**
   * With the intended reading, a check throws only when the code's own
   * listing of the logs directory throws, and with that same error; a
   * `null` entry never ends the wait.
   */
  lemma {:induction false} CheckedWaitThrowsOnlyOnListing(cwd: Path, obs: seq<Observation>, parse: string -> Result<StatusValue, string>,
                                                          readError: Path -> string, intervalSeconds: int, k: nat, delays: seq<int>)
    requires k <= |obs|
    ensures var out := WaitFromChecked(cwd, obs, parse, readError, intervalSeconds, k, delays);
      out.Crashed? ==>
        exists j :: k <= j < |obs| && ObservedStatuses(cwd, obs[j], parse, readError).Failure?
                    && out.error == ObservedStatuses(cwd, obs[j], parse, readError).error
    decreases |obs| - k
  {
    if k < |obs| {
      CheckedStatusesNeverThrow(obs[k].fs, cwd, obs[k].listing, parse, readError, "");
      if StatusesChecked(obs[k].fs, cwd, obs[k].listing, parse, readError).Success? {
        CheckedWaitThrowsOnlyOnListing(cwd, obs, parse, readError, intervalSeconds, k + 1, delays + [intervalSeconds * 1000]);
      }
    }
  }

  /** Where no file holds `null`, the intended reading changes nothing: the checked listing is the code's. */
  lemma CheckedAgreesWithoutNull(fs: map<Path, Node>, cwd: Path, listing: seq<string>,
                                 parse: string -> Result<StatusValue, string>, readError: Path -> string)
    requires var r := Statuses(fs, cwd, listing, parse, readError); r.Success? ==> !HasNull(r.value)
    ensures StatusesChecked(fs, cwd, listing, parse, readError) == Statuses(fs, cwd, listing, parse, readError)
  {
    var fixed := StatusesChecked(fs, cwd, listing, parse, readError);
    var asWritten := Statuses(fs, cwd, listing, parse, readError);
    CheckedStatusesNeverThrow(fs, cwd, listing, parse, readError, "");
    if fixed.Success? {
      assert forall i :: 0 <= i < |asWritten.value| ==> !asWritten.value[i].JsonNull?;
      assert fixed.value == asWritten.value;
    }
  }

  /** Where no check sees a `null` entry, the intended wait ends exactly as the code's does. */
  lemma {:induction false} CheckedWaitAgreesWithoutNull(cwd: Path, obs: seq<Observation>, parse: string -> Result<StatusValue, string>,
                                                        readError: Path -> string, intervalSeconds: int, k: nat, delays: seq<int>)
    requires k <= |obs|
    requires forall j :: k <= j < |obs| && ObservedStatuses(cwd, obs[j], parse, readError).Success? ==>
               !HasNull(ObservedStatuses(cwd, obs[j], parse, readError).value)
    ensures WaitFromChecked(cwd, obs, parse, readError, intervalSeconds, k, delays)
         == WaitFrom(cwd, obs, parse, readError, intervalSeconds, k, delays)
    decreases |obs| - k
  {
    if k < |obs| {
      CheckedAgreesWithoutNull(obs[k].fs, cwd, obs[k].listing, parse, readError);
      CheckedWaitAgreesWithoutNull(cwd, obs, parse, readError, intervalSeconds, k + 1, delays + [intervalSeconds * 1000]);
    }
  }

  /**
   * The intended behaviour as a whole: with the checked reading, no display
   * of a check's records throws, and the wait throws only when a listing of
   * the logs directory throws, as the code's own listing would.
   */
  lemma CheckedWatchNeverThrowsOnNull(cwd: Path, obs: seq<Observation>, parse: string -> Result<StatusValue, string>,
                                      readError: Path -> string, intervalSeconds: int, time: string)
    ensures forall j :: 0 <= j < |obs| && StatusesChecked(obs[j].fs, cwd, obs[j].listing, parse, readError).Success? ==>
              !Display(StatusesChecked(obs[j].fs, cwd, obs[j].listing, parse, readError).value, time).threw
    ensures var out := WaitFromChecked(cwd, obs, parse, readError, intervalSeconds, 0, []);
      out.Crashed? ==>
        exists j :: 0 <= j < |obs| && ObservedStatuses(cwd, obs[j], parse, readError).Failure?
                    && out.error == ObservedStatuses(cwd, obs[j], parse, readError).error
  {
    forall j | 0 <= j < |obs|
      ensures StatusesChecked(obs[j].fs, cwd, obs[j].listing, parse, readError).Success? ==>
              !Display(StatusesChecked(obs[j].fs, cwd, obs[j].listing, parse, readError).value, time).threw
    {
      CheckedStatusesNeverThrow(obs[j].fs, cwd, obs[j].listing, parse, readError, time);
    }
    CheckedWaitThrowsOnlyOnListing(cwd, obs, parse, readError, intervalSeconds, 0, []);
  }
}
