// The code-generation agent's tools: the workspace's safe directory name,
// the file listing that skips build and hidden directories, the shell
// tool's combined output with its byte cap, and the dispatch from a tool
// name to the action it performs. The file system and the shell are
// parameters: a map from relative paths to contents, a directory snapshot,
// and the outcome of each command.

module BotsTools {
  import opened Common
  import opened BotsLlm

  const OUTPUT_CAP: nat := 8000
  const TRUNCATED_MARK: string := "\n... (truncated)"
  const DEFAULT_TIMEOUT: nat := 30

  // ---------------------------------------------------------------------
  // `Workspace::create`.

  predicate SafeChar(c: char)
  {
    IsAlphanumeric(c) || c == '-'
  }

  /** The directory name of a project: every character that is not alphanumeric or '-' becomes '-'. */
  function SafeName(name: string): (r: string)
    ensures |r| == |name|
    ensures forall i | 0 <= i < |r| :: SafeChar(r[i])
    ensures forall i | 0 <= i < |r| :: SafeChar(name[i]) ==> r[i] == name[i]
    ensures forall i | 0 <= i < |r| :: !SafeChar(name[i]) ==> r[i] == '-'
  {
    if name == [] then []
    else [if SafeChar(name[0]) then name[0] else '-'] + SafeName(name[1..])
  }

  /** Names already safe are kept as they are, and only those. */
  lemma SafeNameIdentity(name: string)
    ensures SafeName(name) == name <==> forall i | 0 <= i < |name| :: SafeChar(name[i])
  {
    if SafeName(name) == name {
      forall i | 0 <= i < |name| ensures SafeChar(name[i]) {
        assert SafeName(name)[i] == name[i];
      }
    }
  }

  lemma SafeNameIdempotent(name: string)
    ensures SafeName(SafeName(name)) == SafeName(name)
  {
    SafeNameIdentity(SafeName(name));
  }

  datatype Workspace = Workspace(root: seq<string>, projectName: string)

  function CreateWorkspace(base: seq<string>, projectName: string): (w: Workspace)
    ensures w.projectName == SafeName(projectName)
    ensures w.root == base + [w.projectName]
  {
    var safe := SafeName(projectName);
    Workspace(base + [safe], safe)
  }

  // ---------------------------------------------------------------------
  // Reading and writing files, over a map from relative paths to contents.

  /** `write_file`: the new contents and the report naming the byte count. */
  function WriteFile(files: map<string, string>, path: string, content: string): (r: (map<string, string>, string))
    ensures r.0 == files[path := content]
    ensures r.1 == "Wrote " + path + " (" + DecimalString(|Utf8(content)|) + " bytes)"
  {
    (files[path := content], "Wrote " + path + " (" + DecimalString(|Utf8(content)|) + " bytes)")
  }

  /** `read_file`: the contents, or the error naming the path. */
  function ReadFile(files: map<string, string>, path: string): (r: Result<string, string>)
    ensures r.Ok? <==> path in files
    ensures r.Ok? ==> r.value == files[path]
    ensures r.Err? ==> r.error == "Failed to read " + path
  {
    if path in files then Ok(files[path]) else Err("Failed to read " + path)
  }

  /** What was written is read back, and no other path changes. */
  lemma ReadAfterWrite(files: map<string, string>, path: string, content: string, other: string)
    ensures ReadFile(WriteFile(files, path, content).0, path) == Ok(content)
    ensures other != path ==> ReadFile(WriteFile(files, path, content).0, other) == ReadFile(files, other)
  {
  }

  // ---------------------------------------------------------------------
  // `list_files_sync`: a walk over a directory snapshot, in `read_dir` order.

  datatype Entry = File(name: string) | Dir(name: string, children: seq<Entry>)

  /** Hidden directories and build or dependency caches are not descended into. */
  predicate Skipped(name: string)
  {
    (name != [] && name[0] == '.') || name == "node_modules" || name == "target" || name == "__pycache__"
  }

  /** The relative paths of the files under `es`, each written after `prefix`. */
  function Listing(es: seq<Entry>, prefix: string): seq<string>
    decreases es, 1
  {
    if es == [] then []
    else Listing(es[..|es| - 1], prefix) + EntryListing(es[|es| - 1], prefix)
  }

  function EntryListing(e: Entry, prefix: string): seq<string>
    decreases e, 0
  {
    match e
    case File(n) => [prefix + n]
    case Dir(n, cs) => if Skipped(n) then [] else Listing(cs, prefix + n + "/")
  }

  /**
   * `walk`: appends the files under `es` to `result`, descending into every
   * directory that is not skipped.
   */
  method Walk(es: seq<Entry>, prefix: string, result: seq<string>) returns (out: seq<string>)
    ensures out == result + Listing(es, prefix)
    decreases es
  {
    out := result;
    var i := 0;
    while i < |es|
      invariant 0 <= i <= |es|
      invariant out == result + Listing(es[..i], prefix)
    {
      assert es[..i + 1][..i] == es[..i];
      match es[i] {
        case File(n) =>
          out := out + [prefix + n];
        case Dir(n, cs) =>
          if !Skipped(n) {
            out := Walk(cs, prefix + n + "/", out);
          }
      }
      i := i + 1;
    }
    assert es[..i] == es;
  }

  /** `list_files_sync`: the walk from the workspace root, with paths relative to it. */
  method ListFiles(root: seq<Entry>) returns (files: seq<string>)
    ensures files == Listing(root, "")
  {
    files := Walk(root, "", []);
  }

  /** Nothing under a skipped directory is listed. */
  lemma SkippedHidden(n: string, cs: seq<Entry>, prefix: string)
    requires Skipped(n)
    ensures EntryListing(Dir(n, cs), prefix) == []
  {
  }

  /** Every listed path lies under the prefix it was listed with. */
  lemma {:induction false} ListingUnderPrefix(es: seq<Entry>, prefix: string)
    ensures forall p | p in Listing(es, prefix) :: StartsWith(p, prefix)
    decreases es, 1
  {
    if es != [] {
      ListingUnderPrefix(es[..|es| - 1], prefix);
      EntryUnderPrefix(es[|es| - 1], prefix);
    }
  }

  lemma {:induction false} EntryUnderPrefix(e: Entry, prefix: string)
    ensures forall p | p in EntryListing(e, prefix) :: StartsWith(p, prefix)
    decreases e, 0
  {
    match e
    case File(n) =>
    case Dir(n, cs) =>
      if !Skipped(n) {
        ListingUnderPrefix(cs, prefix + n + "/");
        forall p | p in EntryListing(e, prefix) ensures StartsWith(p, prefix) {
          assert StartsWith(p, prefix + n + "/");
          assert (prefix + n + "/")[..|prefix|] == prefix;
        }
      }
  }

  /** Every file directly in a listed directory appears in the listing. */
  lemma {:induction false} ListingHasFiles(es: seq<Entry>, prefix: string, i: nat)
    requires i < |es| && es[i].File?
    ensures prefix + es[i].name in Listing(es, prefix)
    decreases |es|
  {
    if i < |es| - 1 {
      assert es[..|es| - 1][i] == es[i];
      ListingHasFiles(es[..|es| - 1], prefix, i);
    }
  }

  // ---------------------------------------------------------------------
  // `shell`.

  /** How a command ended, as the operating system reports it. */
  datatype Run =
    | TimedOut
    | SpawnFailed
    | Finished(stdout: string, stderr: string, success: bool, code: Option<int>)

  function IntString(n: int): string
  {
    if n < 0 then "-" + DecimalString(-n) else DecimalString(n)
  }

  /** The error output after its marker, on a line of its own when stdout precedes it. */
  function StderrPart(stdout: string, stderr: string): string
  {
    if stderr == [] then [] else (if stdout == [] then [] else "\n") + "[stderr] " + stderr
  }

  /** The exit-code line of a failed command; -1 when it was ended by a signal. */
  function ExitPart(code: Option<int>): string
  {
    "\n[exit code: " + IntString(code.UnwrapOr(-1)) + "]"
  }

  /** stdout, then the error part, then the exit-code line on failure. */
  function Combined(stdout: string, stderr: string, success: bool, code: Option<int>): string
  {
    stdout + StderrPart(stdout, stderr) + (if success then [] else ExitPart(code))
  }

  /**
   * The cap on the tool's output, cut back to a character boundary: the
   * longest prefix of at most 8000 bytes, followed by the truncation mark.
   */
  function Capped(s: string): (r: string)
    ensures |Utf8(s)| <= OUTPUT_CAP ==> r == s
    ensures |Utf8(s)| > OUTPUT_CAP ==> exists k | 0 <= k <= |s| :: r == s[..k] + TRUNCATED_MARK
  {
    if |Utf8(s)| > OUTPUT_CAP then s[..FloorBoundary(s, OUTPUT_CAP)] + TRUNCATED_MARK else s
  }

  /** Over the cap, the longest prefix that fits in 8000 bytes is kept, then the mark. */
  lemma CappedBound(s: string)
    requires |Utf8(s)| > OUTPUT_CAP
    ensures var k := FloorBoundary(s, OUTPUT_CAP);
      k < |s| && Capped(s) == s[..k] + TRUNCATED_MARK &&
      |Utf8(s[..k])| <= OUTPUT_CAP && |Utf8(s[..k + 1])| > OUTPUT_CAP
  {
  }

  /** `shell`: the command's outcome, its outputs combined and capped. */
  method Shell(run: Run) returns (r: Result<string, string>)
    ensures r == ShellResult(run)
  {
    match run {
      case TimedOut =>
        return Err("Command timed out");
      case SpawnFailed =>
        return Err("Failed to execute command");
      case Finished(stdout, stderr, success, code) =>
        var result := CombineOutput(stdout, stderr, success, code);
        result := CapOutput(result);
        return Ok(result);
    }
  }

  /** The output string built up with `push_str`, as the tool does. */
  method CombineOutput(stdout: string, stderr: string, success: bool, code: Option<int>) returns (result: string)
    ensures result == Combined(stdout, stderr, success, code)
  {
    result := "";
    if stdout != [] {
      result := result + stdout;
    }
    assert result == stdout;
    if stderr != [] {
      if result != [] {
        result := result + "\n";
      }
      result := result + "[stderr] ";
      result := result + stderr;
    }
    assert result == stdout + StderrPart(stdout, stderr);
    if !success {
      result := result + ExitPart(code);
    }
  }

  /** The cap, cutting in place and appending the mark. */
  method CapOutput(s: string) returns (result: string)
    ensures result == Capped(s)
  {
    result := s;
    if |Utf8(result)| > OUTPUT_CAP {
      result := result[..FloorBoundary(result, OUTPUT_CAP)];
      result := result + TRUNCATED_MARK;
    }
  }

  /** The command's standard output always comes first. */
  lemma StdoutFirst(stdout: string, stderr: string, success: bool, code: Option<int>)
    ensures StartsWith(Combined(stdout, stderr, success, code), stdout)
  {
  }

  /** Error output is shown after its marker whenever there is some. */
  lemma StderrShown(stdout: string, stderr: string, success: bool, code: Option<int>)
    requires stderr != []
    ensures Contains(Combined(stdout, stderr, success, code), "[stderr] " + stderr)
  {
    var sep: string := if stdout == [] then [] else "\n";
    var m := "[stderr] " + stderr;
    var tail := if success then [] else ExitPart(code);
    assert StderrPart(stdout, stderr) == sep + m;
    ContainsSuffix(sep, m);
    ContainsWithin(stdout, sep + m, tail, m);
  }

  /** A failed command's output ends with its exit code, or -1 when it has none. */
  lemma ExitCodeLast(stdout: string, stderr: string, code: Option<int>)
    ensures EndsWith(Combined(stdout, stderr, false, code), "\n[exit code: " + IntString(code.UnwrapOr(-1)) + "]")
  {
    var c := Combined(stdout, stderr, false, code);
    var suffix := ExitPart(code);
    assert c[|c| - |suffix|..] == suffix;
  }

  /** A quiet successful command reports nothing. */
  lemma QuietSuccess(code: Option<int>)
    ensures Combined("", "", true, code) == ""
  {
  }

  // ---------------------------------------------------------------------
  // The byte cap as written.

  /**
   * `result.truncate(8000)` as written: it panics (None) when byte 8000
   * falls inside a multi-byte character.
   */
  function CappedAsWritten(s: string): (r: Option<string>)
    ensures |Utf8(s)| <= OUTPUT_CAP ==> r == Some(s)
    ensures r.Some? && |Utf8(s)| > OUTPUT_CAP ==> exists k | 0 <= k <= |s| :: r.value == s[..k] + TRUNCATED_MARK && |Utf8(s[..k])| == OUTPUT_CAP
  {
    if |Utf8(s)| > OUTPUT_CAP then
      match BoundaryIndex(s, OUTPUT_CAP)
      case None => None
      case Some(k) => Some(s[..k] + TRUNCATED_MARK)
    else Some(s)
  }

  /** Where byte 8000 is a boundary, the written cap and the corrected one agree. */
  lemma CappedAgreesOnBoundary(s: string, k: nat)
    requires k <= |s| && |Utf8(s[..k])| == OUTPUT_CAP && |Utf8(s)| > OUTPUT_CAP
    ensures CappedAsWritten(s) == Some(Capped(s))
  {
    BoundaryIndexComplete(s, OUTPUT_CAP, k);
    FloorBoundaryAt(s, OUTPUT_CAP, k);
  }

  lemma Utf8PrefixLength(s: string, k: nat)
    requires k <= |s|
    ensures |Utf8(s[..k])| <= |Utf8(s)|
  {
    Utf8Append(s[..k], s[k..]);
    assert s == s[..k] + s[k..];
  }

  /**
   * Output of one ASCII character followed by 4000 'é' (8001 bytes) makes
   * the shell tool panic: byte 8000 is the second byte of the last 'é'.
   */
  lemma CappedPanics()
    ensures var s := "a" + EAcute(4000);
      |Utf8(s)| == 8001 && CappedAsWritten(s) == None && |Capped(s)| == 4000 + |TRUNCATED_MARK|
  {
    var s := "a" + EAcute(4000);
    EAcuteUtf8Length(4000);
    assert s[0] == 'a' && s[1..] == EAcute(4000);
    assert |Utf8(s)| == 8001;
    EAcuteNoOddBoundary(4000, 7999);
    assert BoundaryIndex(s, 8000) == None;
    assert s[..|s| - 1] + [s[|s| - 1]] == s;
    Utf8Append(s[..|s| - 1], [s[|s| - 1]]);
    assert [s[|s| - 1]][1..] == [];
    FloorBoundaryAtLeast(s, OUTPUT_CAP, |s| - 1);
  }

  // ---------------------------------------------------------------------
  // `execute_tool` and `miren_deploy`.

  /** A tool call resolved to what it does, with its inputs' defaults filled in. */
  datatype Action =
    | WriteAction(path: string, content: string)
    | ReadAction(path: string)
    | ListAction
    | ShellAction(command: string, timeout: nat)
    | DeployAction

  const TOOL_NAMES: set<string> := {"write_file", "read_file", "list_files", "shell", "deploy"}

  /** The dispatch on the tool's name; any other name is an error. */
  function Dispatch(name: string, input: map<string, Json>): (r: Result<Action, string>)
    ensures r.Ok? <==> name in TOOL_NAMES
    ensures r.Err? ==> r.error == "Unknown tool: " + name
    ensures name == "write_file" ==>
      r == Ok(WriteAction(InputStr(input, "path").UnwrapOr("unnamed.txt"), InputStr(input, "content").UnwrapOr("")))
    ensures name == "read_file" ==> r == Ok(ReadAction(InputStr(input, "path").UnwrapOr("")))
    ensures name == "list_files" ==> r == Ok(ListAction)
    ensures name == "shell" ==>
      r == Ok(ShellAction(InputStr(input, "command").UnwrapOr("echo 'no command'"), InputUint(input, "timeout").UnwrapOr(DEFAULT_TIMEOUT)))
    ensures name == "deploy" ==> r == Ok(DeployAction)
  {
    if name == "write_file" then
      Ok(WriteAction(InputStr(input, "path").UnwrapOr("unnamed.txt"), InputStr(input, "content").UnwrapOr("")))
    else if name == "read_file" then Ok(ReadAction(InputStr(input, "path").UnwrapOr("")))
    else if name == "list_files" then Ok(ListAction)
    else if name == "shell" then
      Ok(ShellAction(InputStr(input, "command").UnwrapOr("echo 'no command'"), InputUint(input, "timeout").UnwrapOr(DEFAULT_TIMEOUT)))
    else if name == "deploy" then Ok(DeployAction)
    else Err("Unknown tool: " + name)
  }

  /** `code_tools`: the five tools offered to the model, by name. */
  function CodeTools(): (r: seq<ToolDef>)
    ensures |r| == 5
  {
    [ToolDef("write_file"), ToolDef("read_file"), ToolDef("list_files"), ToolDef("shell"), ToolDef("deploy")]
  }

  /** Every tool offered to the model is one the dispatch accepts, and each is offered once. */
  lemma OfferedToolsDispatch()
    ensures forall i | 0 <= i < |CodeTools()| :: CodeTools()[i].name in TOOL_NAMES
    ensures forall n | n in TOOL_NAMES :: exists i | 0 <= i < |CodeTools()| :: CodeTools()[i].name == n
    ensures forall i, j | 0 <= i < j < |CodeTools()| :: CodeTools()[i].name != CodeTools()[j].name
  {
    var t := CodeTools();
    assert t[0].name == "write_file" && t[1].name == "read_file" && t[2].name == "list_files";
    assert t[3].name == "shell" && t[4].name == "deploy";
  }

  /** The commands `miren_deploy` runs: `miren init` first when the project has no miren config. */
  function DeployCommands(w: Workspace, initialized: bool): (r: seq<string>)
    ensures |r| == if initialized then 1 else 2
    ensures r[|r| - 1] == "miren deploy 2>&1"
    ensures !initialized ==> r[0] == "miren init -n " + w.projectName
  {
    if initialized then ["miren deploy 2>&1"] else ["miren init -n " + w.projectName, "miren deploy 2>&1"]
  }

  /** A tool call's output, and the workspace files after it. */
  datatype ToolRun = ToolRun(output: Result<string, string>, files: map<string, string>)

  /**
   * `execute_tool`. `files` are the workspace's files, `tree` its directory
   * snapshot, and `run` what each shell command does.
   */
  method ExecuteTool(w: Workspace, files: map<string, string>, tree: seq<Entry>, run: string -> Run,
                     name: string, input: map<string, Json>) returns (r: ToolRun)
    ensures name !in TOOL_NAMES ==> r == ToolRun(Err("Unknown tool: " + name), files)
    ensures name == "write_file" ==>
      var a := Dispatch(name, input).value;
      r == ToolRun(Ok(WriteFile(files, a.path, a.content).1), WriteFile(files, a.path, a.content).0)
    ensures name != "write_file" ==> r.files == files
    ensures name == "read_file" ==> r.output == ReadFile(files, Dispatch(name, input).value.path)
    ensures name == "list_files" ==> r.output == Ok(Join(Listing(tree, ""), "\n"))
    ensures name == "shell" ==> r.output == ShellResult(run(Dispatch(name, input).value.command))
    ensures name == "deploy" ==> r.output == DeployResult(w, ".miren/app.toml" in files, run)
  {
    match Dispatch(name, input) {
      case Err(e) =>
        r := ToolRun(Err(e), files);
      case Ok(WriteAction(path, content)) =>
        var written := WriteFile(files, path, content);
        r := ToolRun(Ok(written.1), written.0);
      case Ok(ReadAction(path)) =>
        r := ToolRun(ReadFile(files, path), files);
      case Ok(ListAction) =>
        var listed := ListFiles(tree);
        r := ToolRun(Ok(Join(listed, "\n")), files);
      case Ok(ShellAction(command, _)) =>
        var out := Shell(run(command));
        r := ToolRun(out, files);
      case Ok(DeployAction) =>
        var out := MirenDeploy(w, ".miren/app.toml" in files, run);
        r := ToolRun(out, files);
    }
  }

  /** `miren_deploy`: a failed `miren init` aborts the deploy; otherwise the deploy's own output is the result. */
  method MirenDeploy(w: Workspace, initialized: bool, run: string -> Run) returns (r: Result<string, string>)
    ensures r == DeployResult(w, initialized, run)
  {
    if !initialized {
      var init := Shell(run("miren init -n " + w.projectName));
      if init.Err? {
        return init;
      }
    }
    r := Shell(run("miren deploy 2>&1"));
  }

  /** What `shell` makes of a command's outcome. */
  function ShellResult(run: Run): (r: Result<string, string>)
    ensures r.Err? <==> !run.Finished?
  {
    match run
    case TimedOut => Err("Command timed out")
    case SpawnFailed => Err("Failed to execute command")
    case Finished(o, e, ok, c) => Ok(Capped(Combined(o, e, ok, c)))
  }

  /** The deploy's outcome: a failed `miren init` is the result; otherwise the output of `miren deploy`. */
  function DeployResult(w: Workspace, initialized: bool, run: string -> Run): (r: Result<string, string>)
    ensures initialized ==> r == ShellResult(run(DeployCommands(w, true)[0]))
    ensures !initialized && ShellResult(run(DeployCommands(w, false)[0])).Err? ==> r == ShellResult(run(DeployCommands(w, false)[0]))
    ensures !initialized && ShellResult(run(DeployCommands(w, false)[0])).Ok? ==> r == ShellResult(run(DeployCommands(w, false)[1]))
  {
    var init := ShellResult(run("miren init -n " + w.projectName));
    if !initialized && init.Err? then init else ShellResult(run("miren deploy 2>&1"))
  }
}
