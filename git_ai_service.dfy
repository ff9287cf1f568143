/**
 * The self-contained logic of GitAiService.kt, with processes and files
 * replaced by their results: the shim-installed check, the platform table,
 * the shell rc update, the choice of the real git, the agent checkpoint
 * payload, and the recent-commit statistics.
 */
module GitAiService {
  import opened Wrappers
  import opened Text

  // ---------------------------------------------------------------- shim

  /** A config that points back into the tool's own directories. */
  predicate IsRecursiveConfig(content: string)
    ensures IsRecursiveConfig(content) <==>
      (exists i :: OccursAt(content, ".git-ai", i)) || (exists i :: OccursAt(content, ".local/bin", i))
  {
    Contains(content, ".git-ai") || Contains(content, ".local/bin")
  }

  /**
   * `isShimInstalled`: both shims and the config exist, the config can be read
   * (`config` is none when reading throws), and it is not recursive.
   */
  predicate IsShimInstalled(gitShimExists: bool, gitOgShimExists: bool, configExists: bool, config: Option<string>)
    ensures IsShimInstalled(gitShimExists, gitOgShimExists, configExists, config) ==>
      gitShimExists && gitOgShimExists && configExists && config.Some?
    ensures config.Some? && IsRecursiveConfig(config.value) ==>
      !IsShimInstalled(gitShimExists, gitOgShimExists, configExists, config)
    ensures gitShimExists && gitOgShimExists && configExists && config.Some? && !IsRecursiveConfig(config.value) ==>
      IsShimInstalled(gitShimExists, gitOgShimExists, configExists, config)
  {
    if gitShimExists && gitOgShimExists && configExists then
      match config
      case None => false
      case Some(content) => !IsRecursiveConfig(content)
    else false
  }

  /** The config `installGlobalShim` writes, after `trimIndent`. */
  function ConfigText(realGit: string): string {
    "{\n  \"git_path\": \"" + realGit + "\"\n}"
  }

  /** The config written for a git path is recursive exactly when the path itself mentions a tool directory. */
  lemma ConfigRecursiveOnlyThroughPath(realGit: string)
    ensures IsRecursiveConfig(ConfigText(realGit)) <==> IsRecursiveConfig(realGit)
  {
    var pre := "{\n  \"git_path\": \"";
    var post := "\"\n}";
    assert ConfigText(realGit) == pre + realGit + post;
    assert '.' !in pre;
    if Contains(ConfigText(realGit), ".git-ai") {
      OccursOnlyInMiddle(pre, realGit, post, ".git-ai");
    }
    if Contains(ConfigText(realGit), ".local/bin") {
      OccursOnlyInMiddle(pre, realGit, post, ".local/bin");
    }
    if Contains(realGit, ".git-ai") {
      ContainedInFrame(pre, realGit, post, ".git-ai");
    }
    if Contains(realGit, ".local/bin") {
      ContainedInFrame(pre, realGit, post, ".local/bin");
    }
  }

  lemma ContainedInFrame(pre: string, mid: string, post: string, t: string)
    requires Contains(mid, t)
    ensures Contains(pre + mid + post, t)
  {
    var i :| OccursAt(mid, t, i);
    assert (pre + mid + post)[|pre| + i..|pre| + i + |t|] == mid[i..i + |t|];
    assert OccursAt(pre + mid + post, t, |pre| + i);
  }

  // ------------------------------------------------------ platform table

  datatype Os = MacOs | Windows | OtherOs(name: string)

  /** The `binaryName` table of `installGlobalShim`: Err for an unsupported platform. */
  function BinaryName(os: Os, arch: string): (r: Result<string, string>)
    ensures r.Ok? <==> !os.OtherOs?
    ensures r.Ok? ==> StartsWith(r.value, if os.Windows? then "windows-x64/" else "macos-")
    ensures os == MacOs ==> (r == Ok("macos-arm64/git-ai") <==> arch == "aarch64")
    ensures os == MacOs && arch != "aarch64" ==> r == Ok("macos-intel/git-ai")
    ensures os == Windows ==> r == Ok("windows-x64/git-ai.exe")
  {
    match os
    case MacOs => if arch == "aarch64" then Ok("macos-arm64/git-ai") else Ok("macos-intel/git-ai")
    case Windows => Ok("windows-x64/git-ai.exe")
    case OtherOs(name) => Err("Unsupported platform: " + name + " / " + arch)
  }

  /** The bundled resource to copy. */
  function ResourcePath(binaryName: string): string {
    "/bin/" + binaryName
  }

  /** The installed binary's file name. */
  function DestinationName(os: Os): string {
    if os.Windows? then "git-ai.exe" else "git-ai"
  }

  /** The copied binary keeps its name: every supported resource path ends in the destination's name. */
  lemma ResourceMatchesDestination(os: Os, arch: string)
    requires BinaryName(os, arch).Ok?
    ensures var r := ResourcePath(BinaryName(os, arch).value);
      |r| > |DestinationName(os)| &&
      r[|r| - |DestinationName(os)| - 1..] == "/" + DestinationName(os)
  {
  }

  // ---------------------------------------------------------- shell rc

  const EXPORT_LINE: string := "export PATH=\"$HOME/.git-ai/bin:$PATH\""

  const RC_COMMENT: string := "\n# Added by git-ai-intelij to ensure correct attribution\n"

  /** The content `updateRcFile` leaves: the export block appended only when the line is absent. */
  function UpdatedRc(content: string): (r: string)
    ensures Contains(r, EXPORT_LINE)
    ensures StartsWith(r, content)
    ensures Contains(content, EXPORT_LINE) ==> r == content
  {
    if Contains(content, EXPORT_LINE) then content
    else
      var r := content + RC_COMMENT + EXPORT_LINE + "\n";
      assert r[..|content|] == content;
      assert OccursAt(r, EXPORT_LINE, |content| + |RC_COMMENT|) by {
        assert r[|content| + |RC_COMMENT|..|content| + |RC_COMMENT| + |EXPORT_LINE|] == EXPORT_LINE;
      }
      r
  }

  /** Updating twice is updating once. */
  lemma UpdateRcIdempotent(content: string)
    ensures UpdatedRc(UpdatedRc(content)) == UpdatedRc(content)
  {
  }

  /** An update appends exactly the comment and the export line, or nothing. */
  lemma UpdateRcAppends(content: string)
    ensures UpdatedRc(content) == content ||
      (!Contains(content, EXPORT_LINE) && UpdatedRc(content) == content + RC_COMMENT + EXPORT_LINE + "\n")
  {
  }

  /** A shell rc file. */
  class RcFile {
    var content: string

    constructor (content: string)
      ensures this.content == content
    {
      this.content := content;
    }
  }

  /** `updateRcFile`; `readable` is false when reading or appending throws, which is caught. */
  method UpdateRcFile(file: RcFile, readable: bool)
    modifies file
    ensures file.content == if readable then UpdatedRc(old(file.content)) else old(file.content)
  {
    if !readable {
      return;
    }
    var content := file.content;
    if !Contains(content, EXPORT_LINE) {
      file.content := file.content + RC_COMMENT + EXPORT_LINE + "\n";
    }
  }

  const RC_CANDIDATES: seq<string> := [".zshrc", ".bash_profile", ".bashrc", ".profile"]

  function ExistingRcFiles(candidates: seq<string>, existing: set<string>): (r: seq<string>)
    ensures forall f :: f in r <==> f in candidates && f in existing
    ensures |r| <= |candidates|
  {
    if candidates == [] then []
    else (if candidates[0] in existing then [candidates[0]] else []) + ExistingRcFiles(candidates[1..], existing)
  }

  /** The filter keeps the candidates' order: it maps concatenation to concatenation. */
  lemma {:induction false} ExistingRcFilesAppend(a: seq<string>, b: seq<string>, existing: set<string>)
    ensures ExistingRcFiles(a + b, existing) == ExistingRcFiles(a, existing) + ExistingRcFiles(b, existing)
    decreases |a|
  {
    if a == [] {
      assert a + b == b;
    } else {
      assert (a + b)[0] == a[0] && (a + b)[1..] == a[1..] + b;
      ExistingRcFilesAppend(a[1..], b, existing);
    }
  }

  /** The rc files `configureShellPath` updates, given the names that exist in the home directory. */
  function RcFilesToUpdate(os: Os, existing: set<string>): (r: seq<string>)
    ensures os.Windows? <==> r == []
    ensures forall f :: f in RC_CANDIDATES && f in existing && !os.Windows? ==> f in r
    ensures forall f :: f in r ==> f in RC_CANDIDATES
    ensures forall f :: f in r && f !in existing ==> r == [if os.MacOs? then ".zshrc" else ".bashrc"]
  {
    if os.Windows? then []
    else
      var found := ExistingRcFiles(RC_CANDIDATES, existing);
      if found == [] then [if os.MacOs? then ".zshrc" else ".bashrc"] else found
  }

  // ------------------------------------------------------ real git path

  function ExcludePatterns(home: string): seq<string> {
    [home + "/.git-ai", home + "/.local/bin"]
  }

  /** The textual filter of `findRealGitPath`. */
  predicate IsExcludedCandidate(p: string, home: string) {
    StartsWithAny(p, ExcludePatterns(home)) || Contains(p, "git-ai")
  }

  /**
   * A candidate `findRealGitPath` returns: not excluded, resolvable
   * (`realNames` maps each path whose real path can be taken to that real
   * path's file name), and not resolving to the tool's own binary.
   */
  predicate IsAcceptedCandidate(p: string, home: string, realNames: map<string, string>) {
    && !IsExcludedCandidate(p, home)
    && p in realNames
    && !IsToolBinaryName(realNames[p])
  }

  /** The tool's own binary, by its real file name in any case. */
  predicate IsToolBinaryName(name: string) {
    var lower := ToLowerAscii(name);
    lower == "git-ai" || lower == "git-ai.exe"
  }

  /** The trimmed non-blank lines of the lookup command's output. */
  function Candidates(output: string): (r: seq<string>)
    ensures |r| == |NonBlank(Lines(output))|
    ensures forall p :: p in r <==> exists line :: line in Lines(output) && !IsBlank(line) && p == Trim(line)
  {
    var lines := NonBlank(Lines(output));
    var r := TrimAll(lines);
    forall p | p in r ensures exists line :: line in Lines(output) && !IsBlank(line) && p == Trim(line) {
      var k :| 0 <= k < |r| && r[k] == p;
      assert lines[k] in Lines(output) && !IsBlank(lines[k]);
    }
    forall line | line in Lines(output) && !IsBlank(line) ensures Trim(line) in r {
      var k :| 0 <= k < |lines| && lines[k] == line;
      assert r[k] == Trim(line);
    }
    r
  }

  /** `map { it.trim() }`. */
  function TrimAll(lines: seq<string>): (r: seq<string>)
    ensures |r| == |lines|
    ensures forall k :: 0 <= k < |lines| ==> r[k] == Trim(lines[k])
  {
    if lines == [] then [] else [Trim(lines[0])] + TrimAll(lines[1..])
  }

  /**
   * Candidates come in output order: the first output line, when not blank,
   * gives the first candidate, and the rest come from the rest of the output.
   */
  lemma CandidatesAtBreak(a: string, b: string)
    requires forall j :: 0 <= j < |a| ==> !IsLineBreak(a[j])
    ensures Candidates(a + "\n" + b) == (if IsBlank(a) then [] else [Trim(a)]) + Candidates(b)
  {
    LinesAtBreak(a, "\n", b);
    NonBlankAppend([a], Lines(b));
    assert [a] + Lines(b) == Lines(a + "\n" + b);
    if IsBlank(a) {
      assert NonBlank([a]) == [];
      assert NonBlank(Lines(a + "\n" + b)) == NonBlank(Lines(b));
    } else {
      assert NonBlank([a]) == [a];
      var rest := NonBlank(Lines(b));
      assert NonBlank(Lines(a + "\n" + b)) == [a] + rest;
      assert ([a] + rest)[1..] == rest;
    }
  }

  /** An output made of lines joined by `\n` gives the trimmed non-blank ones among them, in order. */
  lemma CandidatesOfJoin(lines: seq<string>)
    requires |lines| >= 1
    requires forall k, j :: 0 <= k < |lines| && 0 <= j < |lines[k]| ==> !IsLineBreak(lines[k][j])
    ensures Candidates(Join(lines, "\n")) == TrimAll(NonBlank(lines))
  {
    LinesOfJoin(lines);
  }

  /** `excludePatterns.any { p.startsWith(it) }`. */
  function StartsWithAny(p: string, patterns: seq<string>): (r: bool)
    ensures r <==> exists k :: 0 <= k < |patterns| && StartsWith(p, patterns[k])
  {
    if patterns == [] then false else StartsWith(p, patterns[0]) || StartsWithAny(p, patterns[1..])
  }

  function FirstAcceptedIndex(cands: seq<string>, home: string, realNames: map<string, string>, from: nat): (r: Option<nat>)
    requires from <= |cands|
    ensures r.Some? ==> from <= r.value < |cands| && IsAcceptedCandidate(cands[r.value], home, realNames)
    ensures r.Some? ==> forall j :: from <= j < r.value ==> !IsAcceptedCandidate(cands[j], home, realNames)
    ensures r.None? ==> forall j :: from <= j < |cands| ==> !IsAcceptedCandidate(cands[j], home, realNames)
    decreases |cands| - from
  {
    if from == |cands| then None
    else if IsAcceptedCandidate(cands[from], home, realNames) then Some(from)
    else FirstAcceptedIndex(cands, home, realNames, from + 1)
  }

  /** The path `findRealGitPath` returns; `output` is none when the lookup command throws. */
  function RealGitPath(output: Option<string>, home: string, realNames: map<string, string>): Option<string> {
    match output
    case None => None
    case Some(out) =>
      var cands := Candidates(out);
      match FirstAcceptedIndex(cands, home, realNames, 0)
      case None => None
      case Some(i) => Some(cands[i])
  }

  /**
   * The path found is the first accepted candidate: it is one of the output's
   * lines, passes every filter, and no earlier line does; none is found only
   * when no line passes.
   */
  lemma RealGitPathIsFirstAccepted(output: Option<string>, home: string, realNames: map<string, string>)
    ensures var r := RealGitPath(output, home, realNames);
      && (r.Some? ==>
            (output.Some? && IsAcceptedCandidate(r.value, home, realNames) &&
             exists i :: 0 <= i < |Candidates(output.value)| && Candidates(output.value)[i] == r.value &&
               (forall j :: 0 <= j < i ==> !IsAcceptedCandidate(Candidates(output.value)[j], home, realNames))))
      && (output.Some? && r.None? ==>
            forall p :: p in Candidates(output.value) ==> !IsAcceptedCandidate(p, home, realNames))
  {
  }

  /** The path found never names the tool and always resolves. */
  lemma RealGitPathNeverTheTool(output: Option<string>, home: string, realNames: map<string, string>)
    ensures var r := RealGitPath(output, home, realNames);
      r.Some? ==>
        (!Contains(r.value, "git-ai") && !StartsWith(r.value, home + "/.git-ai") &&
         !StartsWith(r.value, home + "/.local/bin") && r.value in realNames && !IsToolBinaryName(realNames[r.value]))
  {
    var r := RealGitPath(output, home, realNames);
    if r.Some? {
      RealGitPathIsFirstAccepted(output, home, realNames);
      assert ExcludePatterns(home)[0] == home + "/.git-ai" && ExcludePatterns(home)[1] == home + "/.local/bin";
    }
  }

  /** The candidate loop of `findRealGitPath`, proved to return `RealGitPath`. */
  method FindRealGitPath(output: Option<string>, home: string, realNames: map<string, string>) returns (r: Option<string>)
    ensures r == RealGitPath(output, home, realNames)
  {
    if output.None? {
      return None;
    }
    var lines := NonBlank(Lines(output.value));
    ghost var cands := Candidates(output.value);
    for i := 0 to |lines|
      invariant FirstAcceptedIndex(cands, home, realNames, 0) == FirstAcceptedIndex(cands, home, realNames, i)
    {
      var p := Trim(lines[i]);
      assert p == cands[i];
      if IsExcludedCandidate(p, home) {
        continue;
      }
      if p !in realNames {
        continue;
      }
      if IsToolBinaryName(realNames[p]) {
        continue;
      }
      return Some(p);
    }
    return None;
  }

  /**
   * The git that is found is written into the config, and that config is
   * accepted unless the path itself mentions `.local/bin`: the exclusion
   * filter rejects `.local/bin` only under the home directory, the config
   * check anywhere.
   */
  lemma FoundGitConfigAccepted(g: string, home: string, realNames: map<string, string>)
    requires IsAcceptedCandidate(g, home, realNames)
    ensures IsShimInstalled(true, true, true, Some(ConfigText(g))) <==> !Contains(g, ".local/bin")
  {
    ConfigRecursiveOnlyThroughPath(g);
    assert ".git-ai" == "." + "git-ai";
    ContainsSuffix(g, ".", "git-ai");
    assert !Contains(g, ".git-ai");
  }

  /** A one-line lookup output yields that line as the only candidate. */
  lemma SingleLineCandidates(g: string)
    requires g != [] && !IsWhitespace(g[0]) && !IsWhitespace(g[|g| - 1])
    requires forall j :: 0 <= j < |g| ==> !IsLineBreak(g[j])
    ensures Candidates(g + "\n") == [g]
  {
    CandidatesAtBreak(g, []);
    assert g + "\n" + [] == g + "\n";
    CandidatesOfEmpty();
    TrimUnpadded(g);
  }

  /** An empty output has no candidates. */
  lemma CandidatesOfEmpty()
    ensures Candidates([]) == []
  {
    assert Lines([]) == [[]];
    assert NonBlank([[]]) == [];
  }

  lemma OptLocalBinAccepted(g: string)
    requires g == "/opt/.local/bin/git"
    ensures IsAcceptedCandidate(g, "/home/u", map[g := "git"])
  {
    NoOccurrenceWithoutChar(g, "git-ai", 3);
    var pats := ExcludePatterns("/home/u");
    assert !StartsWith(g, pats[0]) by { assert g[1] != pats[0][1]; }
    assert !StartsWith(g, pats[1]) by { assert g[1] != pats[1][1]; }
    assert ToLowerAscii("git") == "git";
  }

  /** A system git under a `.local/bin` outside the home directory is found ... */
  lemma LocalBinOutsideHomeIsFound(g: string)
    requires g == "/opt/.local/bin/git"
    ensures RealGitPath(Some(g + "\n"), "/home/u", map[g := "git"]) == Some(g)
  {
    OptLocalBinIsOneLine(g);
    OptLocalBinAccepted(g);
    SingleAcceptedLineIsFound(g, "/home/u", map[g := "git"]);
  }

  lemma OptLocalBinIsOneLine(g: string)
    requires g == "/opt/.local/bin/git"
    ensures g != [] && !IsWhitespace(g[0]) && !IsWhitespace(g[|g| - 1])
    ensures forall j :: 0 <= j < |g| ==> !IsLineBreak(g[j])
  {
  }

  /** A lookup that prints one accepted path finds that path. */
  lemma SingleAcceptedLineIsFound(g: string, home: string, realNames: map<string, string>)
    requires g != [] && !IsWhitespace(g[0]) && !IsWhitespace(g[|g| - 1])
    requires forall j :: 0 <= j < |g| ==> !IsLineBreak(g[j])
    requires IsAcceptedCandidate(g, home, realNames)
    ensures RealGitPath(Some(g + "\n"), home, realNames) == Some(g)
  {
    SingleLineCandidates(g);
    assert FirstAcceptedIndex([g], home, realNames, 0) == Some(0);
  }

  /** ... yet the config written for it is rejected, so the shim is reinstalled every time. */
  lemma LocalBinOutsideHomeIsRejectedLater()
    ensures !IsShimInstalled(true, true, true, Some(ConfigText("/opt/.local/bin/git")))
  {
    var g := "/opt/.local/bin/git";
    assert OccursAt(g, ".local/bin", 5) by { assert g[5..15] == ".local/bin"; }
    ConfigRecursiveOnlyThroughPath(g);
  }

  // ------------------------------------------------ agent checkpoint

  /**
   * The `edited_filepaths` rule as written: a path under the project drops
   * the base path and one separator. When the file is the project directory
   * itself, `substring` runs past the end and throws.
   */
  function EditedFilePathsAsWritten(basePath: string, filePath: Option<string>): (r: Result<seq<string>, string>)
    ensures r.Err? <==> filePath == Some(basePath)
    ensures r.Ok? ==> |r.value| <= 1
  {
    if filePath.Some? && StartsWith(filePath.value, basePath) then
      if |basePath| + 1 <= |filePath.value| then Ok([filePath.value[|basePath| + 1..]])
      else
        assert filePath.value == basePath;
        Err("StringIndexOutOfBoundsException")
    else Ok([])
  }

  /** The project directory itself makes the rule throw. */
  lemma ProjectRootCrashesAsWritten(basePath: string)
    ensures EditedFilePathsAsWritten(basePath, Some(basePath)).Err?
  {
  }

  /** The rule with the project directory itself treated as naming no file. */
  function EditedFilePaths(basePath: string, filePath: Option<string>): (r: seq<string>)
    ensures |r| <= 1
    ensures |r| == 1 <==>
      filePath.Some? && StartsWith(filePath.value, basePath) && |filePath.value| > |basePath|
    ensures |r| == 1 ==> filePath.value == basePath + [filePath.value[|basePath|]] + r[0]
  {
    if filePath.Some? && StartsWith(filePath.value, basePath) && |basePath| < |filePath.value| then
      var p := filePath.value;
      assert p == p[..|basePath|] + [p[|basePath|]] + p[|basePath| + 1..];
      [p[|basePath| + 1..]]
    else []
  }

  /** The corrected rule agrees with the written one wherever that one does not throw. */
  lemma EditedFilePathsAgree(basePath: string, filePath: Option<string>)
    ensures EditedFilePathsAsWritten(basePath, filePath).Ok? ==>
      EditedFilePathsAsWritten(basePath, filePath).value == EditedFilePaths(basePath, filePath)
    ensures EditedFilePathsAsWritten(basePath, filePath).Err? ==> EditedFilePaths(basePath, filePath) == []
  {
  }

  /** A file under the project is reported by its path relative to the project. */
  lemma EditedPathRoundTrip(basePath: string, rel: string)
    ensures EditedFilePaths(basePath, Some(basePath + "/" + rel)) == [rel]
  {
    var p := basePath + "/" + rel;
    assert p[..|basePath|] == basePath;
    assert p[|basePath| + 1..] == rel;
  }

  /** The prefix test is on characters, not on path components. */
  lemma PrefixIgnoresComponents()
    ensures EditedFilePaths("/proj", Some("/project/a.kt")) == ["ct/a.kt"]
  {
    assert "/project/a.kt"[..5] == "/proj";
    assert "/project/a.kt"[6..] == "ct/a.kt";
  }

  /** The agent hook's JSON payload, field by field (the transcript is always empty). */
  datatype AgentPayload = AgentPayload(
    kind: string,
    repoWorkingDir: string,
    editedFilepaths: seq<string>,
    agentName: string,
    model: string,
    conversationId: string)

  /** A run of the tool: its arguments and the hook input. */
  datatype Invocation = Invocation(args: seq<string>, payload: AgentPayload)

  /**
   * `checkpointAwsQ`: no command without a project directory; `timestamp` is the current time.
   * The edited paths follow the corrected rule `EditedFilePaths`, so a file path equal to the
   * project directory gives a command with no edited path, where the source throws.
   */
  function CheckpointAwsQ(basePath: Option<string>, filePath: Option<string>, timestamp: nat): (r: Option<Invocation>)
    ensures r.None? <==> basePath.None?
    ensures r.Some? ==>
      && r.value.args == ["checkpoint", "agent-v1", "--hook-input"]
      && r.value.payload.kind == "ai_agent"
      && r.value.payload.agentName == "aws-q"
      && r.value.payload.model == "amazon-q"
      && r.value.payload.repoWorkingDir == basePath.value
      && StartsWith(r.value.payload.conversationId, "intellij-")
      && r.value.payload.conversationId == "intellij-" + DecimalString(timestamp)
      && r.value.payload.editedFilepaths == EditedFilePaths(basePath.value, filePath)
  {
    match basePath
    case None => None
    case Some(base) =>
      Some(Invocation(
        ["checkpoint", "agent-v1", "--hook-input"],
        AgentPayload("ai_agent", base, EditedFilePaths(base, filePath), "aws-q", "amazon-q",
          "intellij-" + DecimalString(timestamp))))
  }

  lemma DecimalLength(n: nat)
    ensures n >= 10 ==> |DecimalString(n)| >= 2
  {
  }

  /** Decimal rendering is injective. */
  lemma {:induction false} DecimalInjective(a: nat, b: nat)
    requires DecimalString(a) == DecimalString(b)
    ensures a == b
  {
    DecimalLength(a);
    DecimalLength(b);
    if a >= 10 && b >= 10 {
      var da := DecimalString(a);
      var db := DecimalString(b);
      assert da[..|da| - 1] == DecimalString(a / 10);
      assert db[..|db| - 1] == DecimalString(b / 10);
      DecimalInjective(a / 10, b / 10);
      assert da[|da| - 1] == db[|db| - 1];
    }
  }

  /** Checkpoints taken at different times carry different conversation ids. */
  lemma ConversationIdsDistinct(basePath: string, f1: Option<string>, f2: Option<string>, t1: nat, t2: nat)
    requires t1 != t2
    ensures CheckpointAwsQ(Some(basePath), f1, t1).value.payload.conversationId !=
            CheckpointAwsQ(Some(basePath), f2, t2).value.payload.conversationId
  {
    var p := "intellij-";
    if p + DecimalString(t1) == p + DecimalString(t2) {
      assert (p + DecimalString(t1))[|p|..] == DecimalString(t1);
      assert (p + DecimalString(t2))[|p|..] == DecimalString(t2);
      DecimalInjective(t1, t2);
    }
  }

  /** A file under the project is named in the payload by its relative path. */
  lemma PayloadNamesEditedFile(basePath: string, rel: string, timestamp: nat)
    ensures CheckpointAwsQ(Some(basePath), Some(basePath + "/" + rel), timestamp).value.payload.editedFilepaths == [rel]
  {
    EditedPathRoundTrip(basePath, rel);
  }

  // ------------------------------------------------- Kotlin integers

  const INT_MIN: int := -0x8000_0000
  const INT_MAX: int := 0x7FFF_FFFF
  const TWO_32: int := 0x1_0000_0000

  predicate IsAsciiDigit(c: char) {
    '0' <= c <= '9'
  }

  predicate AllDigits(s: string) {
    forall i :: 0 <= i < |s| ==> IsAsciiDigit(s[i])
  }

  function DigitsValue(s: string): nat
    requires AllDigits(s)
  {
    if s == [] then 0 else DigitsValue(s[..|s| - 1]) * 10 + (s[|s| - 1] as int - '0' as int)
  }

  /** Kotlin's `toIntOrNull()` in base 10: an optional sign, at least one digit, and a value that fits an `Int`. */
  function ParseInt32(s: string): (r: Option<int>)
    ensures r.Some? ==> INT_MIN <= r.value <= INT_MAX
    ensures s == [] || s == "-" || s == "+" ==> r.None?
    // a result needs at least one digit after the optional sign, and nothing but digits
    ensures r.Some? ==> var d := if s[0] == '-' || s[0] == '+' then s[1..] else s; d != [] && AllDigits(d)
    // and such a text gives its signed value when that fits an `Int`, and none when it does not
    ensures s != [] ==> var d := if s[0] == '-' || s[0] == '+' then s[1..] else s;
      d != [] && AllDigits(d) ==>
        var v: int := if s[0] == '-' then -(DigitsValue(d) as int) else DigitsValue(d);
        r == if INT_MIN <= v <= INT_MAX then Some(v) else None
  {
    if s == [] then None
    else
      var negative := s[0] == '-';
      var digits := if s[0] == '-' || s[0] == '+' then s[1..] else s;
      if digits == [] || !AllDigits(digits) then None
      else
        var d: int := DigitsValue(digits);
        var v := if negative then -d else d;
        if INT_MIN <= v <= INT_MAX then Some(v) else None
  }

  lemma {:induction false} DigitsOfDecimal(n: nat)
    ensures AllDigits(DecimalString(n)) && DigitsValue(DecimalString(n)) == n
  {
    if n >= 10 {
      DigitsOfDecimal(n / 10);
      var d := DecimalString(n);
      assert d[..|d| - 1] == DecimalString(n / 10);
    }
  }

  /** `toIntOrNull` reads back every `Int`'s decimal rendering. */
  lemma ParseInt32RoundTrip(n: int)
    requires INT_MIN <= n <= INT_MAX
    ensures ParseInt32(if n < 0 then "-" + DecimalString(-n) else DecimalString(n)) == Some(n)
  {
    if n < 0 {
      ParseNegativeDecimal(-n);
    } else {
      ParseNonNegativeDecimal(n);
    }
  }

  lemma ParseNonNegativeDecimal(n: nat)
    requires n <= INT_MAX
    ensures ParseInt32(DecimalString(n)) == Some(n)
  {
    var d := DecimalString(n);
    DigitsOfDecimal(n);
    assert d[0] != '-' && d[0] != '+';
  }

  lemma ParseNegativeDecimal(m: nat)
    requires m <= -INT_MIN
    ensures ParseInt32("-" + DecimalString(m)) == Some(0 - m as int)
  {
    var d := DecimalString(m);
    var t := "-" + d;
    DigitsOfDecimal(m);
    assert t[0] == '-' && t[1..] == d;
  }

  /** One past `Int.MAX_VALUE` is no `Int`. */
  lemma ParseInt32Overflow()
    ensures ParseInt32("2147483648") == None
  {
    var t := "2147483648";
    var v := 0;
    for k := 0 to 10
      invariant DigitsValue(t[..k]) == v
      invariant v == [0, 2, 21, 214, 2147, 21474, 214748, 2147483, 21474836, 214748364, 2147483648][k]
    {
      assert t[..k + 1][..k] == t[..k];
      v := v * 10 + (t[k] as int - '0' as int);
    }
    assert t[..10] == t;
  }

  /** A non-digit anywhere rejects the text; a leading `+` is accepted. */
  lemma ParseInt32Signs()
    ensures ParseInt32("12a") == None
    ensures ParseInt32("+7") == Some(7)
  {
    assert !IsAsciiDigit("12a"[2]);
    assert "+7"[1..] == "7";
    assert "7"[..0] == "";
  }

  /** Two's-complement wrap-around into the `Int` range. */
  function Wrap32(x: int): (r: int)
    ensures INT_MIN <= r <= INT_MAX
    ensures (r - x) % TWO_32 == 0
    ensures INT_MIN <= x <= INT_MAX ==> r == x
  {
    (x - INT_MIN) % TWO_32 + INT_MIN
  }

  /** Kotlin's `Int` addition. */
  function Add32(a: int, b: int): (r: int)
    ensures INT_MIN <= r <= INT_MAX
    ensures INT_MIN <= a + b <= INT_MAX ==> r == a + b
    ensures (r - (a + b)) % TWO_32 == 0
  {
    Wrap32(a + b)
  }

  lemma Int32Overflows()
    ensures Add32(INT_MAX, 1) == INT_MIN
  {
  }

  function Sum(xs: seq<int>): int {
    if xs == [] then 0 else Sum(xs[..|xs| - 1]) + xs[|xs| - 1]
  }

  /** `+=` folded over `xs` from 0, with wrap-around. */
  function Sum32(xs: seq<int>): (r: int)
    ensures INT_MIN <= r <= INT_MAX
    ensures (r - Sum(xs)) % TWO_32 == 0
  {
    if xs == [] then 0
    else
      var p := Sum32(xs[..|xs| - 1]);
      var r := Add32(p, xs[|xs| - 1]);
      ModSum(r - (p + xs[|xs| - 1]), p - Sum(xs[..|xs| - 1]));
      r
  }

  /** Multiples of 2^32 add up to one. */
  lemma ModSum(x: int, y: int)
    requires x % TWO_32 == 0 && y % TWO_32 == 0
    ensures (x + y) % TWO_32 == 0
  {
    assert x == TWO_32 * (x / TWO_32);
    assert y == TWO_32 * (y / TWO_32);
    assert x + y == TWO_32 * (x / TWO_32 + y / TWO_32);
  }

  lemma {:induction false} SumPrefixBounded(xs: seq<int>, n: nat)
    requires n <= |xs| && forall i :: 0 <= i < |xs| ==> xs[i] >= 0
    ensures 0 <= Sum(xs[..n]) <= Sum(xs)
    decreases |xs|
  {
    if n < |xs| {
      var m := |xs| - 1;
      assert xs[..m][..n] == xs[..n];
      SumPrefixBounded(xs[..m], n);
    } else {
      assert xs[..n] == xs;
      if xs != [] {
        SumPrefixBounded(xs[..|xs| - 1], |xs| - 1);
        assert xs[..|xs| - 1][..|xs| - 1] == xs[..|xs| - 1];
      }
    }
  }

  /** Without overflow the wrapped sum of non-negative counts is the true sum. */
  lemma {:induction false} Sum32Exact(xs: seq<int>)
    requires forall i :: 0 <= i < |xs| ==> xs[i] >= 0
    requires Sum(xs) <= INT_MAX
    ensures Sum32(xs) == Sum(xs)
  {
    if xs != [] {
      var m := |xs| - 1;
      SumPrefixBounded(xs, m);
      Sum32Exact(xs[..m]);
    }
  }

  // ---------------------------------------------------- commit stats

  /** The integer fields of `CommitStats` (`time_waiting_for_ai` is a `Double` and left out). */
  datatype CommitStats = CommitStats(
    humanAdditions: int,
    mixedAdditions: int,
    aiAdditions: int,
    aiAccepted: int,
    totalAiAdditions: int,
    totalAiDeletions: int,
    gitDiffDeletedLines: int,
    gitDiffAddedLines: int)

  function ZeroStats(): CommitStats {
    CommitStats(0, 0, 0, 0, 0, 0, 0, 0)
  }

  datatype StatField =
    HumanAdditions | MixedAdditions | AiAdditions | AiAccepted |
    TotalAiAdditions | TotalAiDeletions | GitDiffDeletedLines | GitDiffAddedLines

  function Field(s: CommitStats, f: StatField): int {
    match f
    case HumanAdditions => s.humanAdditions
    case MixedAdditions => s.mixedAdditions
    case AiAdditions => s.aiAdditions
    case AiAccepted => s.aiAccepted
    case TotalAiAdditions => s.totalAiAdditions
    case TotalAiDeletions => s.totalAiDeletions
    case GitDiffDeletedLines => s.gitDiffDeletedLines
    case GitDiffAddedLines => s.gitDiffAddedLines
  }

  /** A parsed JSON value: primitives keep their content text (`null` is the primitive "null"). */
  datatype JsonValue = Primitive(content: string) | Object(fields: map<string, JsonValue>) | Array(items: seq<JsonValue>)

  /** `root[key]?.jsonPrimitive?.content?.toIntOrNull() ?: 0`; Err when the value is not a primitive, which throws. */
  function FieldOrZero(root: map<string, JsonValue>, key: string): (r: Result<int, string>)
    ensures r.Err? <==> key in root && !root[key].Primitive?
    ensures r.Ok? ==> INT_MIN <= r.value <= INT_MAX
    ensures key !in root ==> r == Ok(0)
    ensures key in root && root[key].Primitive? ==> r == Ok(ParseInt32(root[key].content).GetOr(0))
  {
    if key !in root then Ok(0)
    else match root[key]
      case Primitive(c) => Ok(ParseInt32(c).GetOr(0))
      case _ => Err("IllegalArgumentException")
  }

  const PARSED_KEYS: seq<string> := ["human_additions", "mixed_additions", "ai_additions", "ai_accepted"]

  /** The keys read in order; once one throws, it and the rest keep their default 0. */
  function ReadFields(root: map<string, JsonValue>, keys: seq<string>): (vs: seq<int>)
    ensures |vs| == |keys|
    ensures forall i :: 0 <= i < |vs| ==> INT_MIN <= vs[i] <= INT_MAX
    ensures forall i :: 0 <= i < |keys| && (forall j :: 0 <= j <= i ==> FieldOrZero(root, keys[j]).Ok?) ==>
      vs[i] == FieldOrZero(root, keys[i]).value
    ensures forall i :: 0 <= i < |keys| && (exists j :: 0 <= j <= i && FieldOrZero(root, keys[j]).Err?) ==>
      vs[i] == 0
  {
    if keys == [] then []
    else match FieldOrZero(root, keys[0])
      case Err(_) => Zeros(|keys|)
      case Ok(v) =>
        var rest := ReadFields(root, keys[1..]);
        assert forall i :: 1 <= i < |keys| ==> keys[1..][i - 1] == keys[i];
        [v] + rest
  }

  function Zeros(n: nat): (vs: seq<int>)
    ensures |vs| == n && forall i :: 0 <= i < n ==> vs[i] == 0
  {
    seq(n, _ => 0)
  }

  /** The object the counts are read from: the top level, or its `range_stats` object. */
  function StatsRoot(json: Option<JsonValue>): (r: Option<map<string, JsonValue>>)
    ensures r.Some? <==>
      (json.Some? && json.value.Object? &&
       ("range_stats" in json.value.fields ==> json.value.fields["range_stats"].Object?))
    ensures r.Some? ==>
      var fields := json.value.fields;
      r.value == if "range_stats" in fields then fields["range_stats"].fields else fields
  {
    match json
    case Some(Object(fields)) =>
      if "range_stats" in fields then
        match fields["range_stats"]
        case Object(inner) => Some(inner)
        case _ => None
      else Some(fields)
    case _ => None
  }

  /** `parseCommitStats`; `json` is none when the text is not JSON. Any exception leaves the fields set so far. */
  function ParseCommitStats(json: Option<JsonValue>): (s: CommitStats)
    ensures forall f :: INT_MIN <= Field(s, f) <= INT_MAX
    ensures s.totalAiAdditions == 0 && s.totalAiDeletions == 0
    ensures s.gitDiffDeletedLines == 0 && s.gitDiffAddedLines == 0
    ensures StatsRoot(json).None? ==> s == ZeroStats()
    ensures StatsRoot(json).Some? ==>
      [s.humanAdditions, s.mixedAdditions, s.aiAdditions, s.aiAccepted] == ReadFields(StatsRoot(json).value, PARSED_KEYS)
  {
    match StatsRoot(json)
    case None => ZeroStats()
    case Some(root) =>
      var vs := ReadFields(root, PARSED_KEYS);
      CommitStats(vs[0], vs[1], vs[2], vs[3], 0, 0, 0, 0)
  }

  /** Both shapes of the stats output are read alike. */
  lemma NestedStatsReadAlike(fields: map<string, JsonValue>)
    requires "range_stats" !in fields
    ensures ParseCommitStats(Some(Object(map["range_stats" := Object(fields)]))) == ParseCommitStats(Some(Object(fields)))
  {
  }

  /** Present integer fields are read, absent ones are 0, and a non-integer text is 0. */
  lemma ParseCommitStatsExample()
    ensures ParseCommitStats(Some(Object(map["human_additions" := Primitive("12"), "ai_additions" := Primitive("x")])))
      == CommitStats(12, 0, 0, 0, 0, 0, 0, 0)
  {
    var root := map["human_additions" := Primitive("12"), "ai_additions" := Primitive("x")];
    assert "range_stats" != "human_additions" && "range_stats" != "ai_additions";
    TopLevelStats(root);
    ExampleFields(root);
  }

  /** An object without `range_stats` is read at its top level. */
  lemma TopLevelStats(fields: map<string, JsonValue>)
    requires "range_stats" !in fields
    ensures var vs := ReadFields(fields, PARSED_KEYS);
      ParseCommitStats(Some(Object(fields))) == CommitStats(vs[0], vs[1], vs[2], vs[3], 0, 0, 0, 0)
  {
  }

  /** The four counts read from the example object. */
  lemma ExampleFields(root: map<string, JsonValue>)
    requires root == map["human_additions" := Primitive("12"), "ai_additions" := Primitive("x")]
    ensures ReadFields(root, PARSED_KEYS) == [12, 0, 0, 0]
  {
    TwelveAndX();
    assert FieldOrZero(root, PARSED_KEYS[0]) == Ok(12);
    assert PARSED_KEYS[1] !in root && PARSED_KEYS[3] !in root;
    assert FieldOrZero(root, PARSED_KEYS[2]) == Ok(0);
    assert forall j :: 0 <= j < 4 ==> FieldOrZero(root, PARSED_KEYS[j]).Ok?;
  }

  lemma TwelveAndX()
    ensures ParseInt32("12") == Some(12) && ParseInt32("x") == None
  {
    assert "12"[..1] == "1" && "1"[..0] == "";
    assert !IsAsciiDigit("x"[0]);
  }

  /** A non-primitive field stops the parse: the later counts stay 0. */
  lemma NonPrimitiveFieldStopsParse()
    ensures ParseCommitStats(Some(Object(map["human_additions" := Primitive("7"), "mixed_additions" := Array([]),
      "ai_additions" := Primitive("3")]))) == CommitStats(7, 0, 0, 0, 0, 0, 0, 0)
  {
    var root := map["human_additions" := Primitive("7"), "mixed_additions" := Array([]), "ai_additions" := Primitive("3")];
    assert "7"[..0] == "";
    assert FieldOrZero(root, PARSED_KEYS[0]) == Ok(7);
    assert FieldOrZero(root, PARSED_KEYS[1]).Err?;
  }

  /** The header of one `git log` line. */
  datatype CommitHeader = CommitHeader(hash: string, shortHash: string, author: string, subject: string)

  const FIELD_SEPARATOR: string := "|||"

  /** Split on `|||`; fewer than four parts is no commit, and parts past the fourth are dropped. */
  function ParseLogLine(line: string): (r: Option<CommitHeader>)
    ensures r.Some? <==> |Split(line, FIELD_SEPARATOR)| >= 4
    ensures r.Some? ==> var p := Split(line, FIELD_SEPARATOR); r.value == CommitHeader(p[0], p[1], p[2], p[3])
  {
    var parts := Split(line, FIELD_SEPARATOR);
    if |parts| < 4 then None else Some(CommitHeader(parts[0], parts[1], parts[2], parts[3]))
  }

  /** The line `git log --pretty=format:%H|||%h|||%an|||%s` prints for a header. */
  function LogLine(h: CommitHeader): string {
    h.hash + FIELD_SEPARATOR + h.shortHash + FIELD_SEPARATOR + h.author + FIELD_SEPARATOR + h.subject
  }

  predicate NoBar(s: string) {
    '|' !in s
  }

  /** A header whose fields contain no `|` is read back from its log line. */
  lemma LogLineRoundTrip(h: CommitHeader)
    requires NoBar(h.hash) && NoBar(h.shortHash) && NoBar(h.author) && NoBar(h.subject)
    ensures ParseLogLine(LogLine(h)) == Some(h)
  {
    var parts := [h.hash, h.shortHash, h.author, h.subject];
    JoinFour(parts, FIELD_SEPARATOR);
    SplitJoin(parts, FIELD_SEPARATOR);
  }

  lemma JoinFour(parts: seq<string>, d: string)
    requires |parts| == 4
    ensures Join(parts, d) == parts[0] + d + parts[1] + d + parts[2] + d + parts[3]
  {
    var p1 := parts[1..];
    var p2 := p1[1..];
    var p3 := p2[1..];
    assert p3 == [parts[3]];
    assert Join(p2, d) == parts[2] + d + parts[3];
    assert Join(p1, d) == parts[1] + d + (parts[2] + d + parts[3]);
  }

  /** A subject containing `|||` is cut at its first separator. */
  lemma SubjectWithSeparatorTruncated(h: CommitHeader, rest: string)
    requires NoBar(h.hash) && NoBar(h.shortHash) && NoBar(h.author) && NoBar(h.subject) && NoBar(rest)
    ensures ParseLogLine(LogLine(h.(subject := h.subject + FIELD_SEPARATOR + rest))) == Some(h)
  {
    var parts := [h.hash, h.shortHash, h.author, h.subject, rest];
    var d := FIELD_SEPARATOR;
    assert Join(parts, d) == LogLine(h.(subject := h.subject + d + rest)) by {
      JoinFour(parts[1..], d);
      assert Join(parts, d) == h.hash + d + (h.shortHash + d + h.author + d + h.subject + d + rest);
    }
    SplitJoin(parts, FIELD_SEPARATOR);
  }

  /** One collected commit. */
  datatype DetailedCommitStats = DetailedCommitStats(stats: CommitStats, hash: string, shortHash: string, author: string, subject: string)

  datatype RecentCommitsData = RecentCommitsData(aggregated: CommitStats, commits: seq<DetailedCommitStats>)

  /**
   * The commits the line loop keeps. `statsOutput` holds the stats command's
   * result per hash: a missing hash means the command failed; a none value
   * means its output was not JSON.
   */
  function CollectCommits(lines: seq<string>, statsOutput: map<string, Option<JsonValue>>): (cs: seq<DetailedCommitStats>)
    ensures |cs| <= |lines|
    ensures forall k :: 0 <= k < |cs| ==>
      (cs[k].hash in statsOutput && cs[k].stats == ParseCommitStats(statsOutput[cs[k].hash]))
    ensures |lines| == 1 ==> cs == KeptFor(lines[0], statsOutput)
  {
    if lines == [] then []
    else
      var n := |lines| - 1;
      CollectCommits(lines[..n], statsOutput) + KeptFor(lines[n], statsOutput)
  }

  /** The commit one log line contributes: none when it does not parse or its stats command fails. */
  function KeptFor(line: string, statsOutput: map<string, Option<JsonValue>>): (cs: seq<DetailedCommitStats>)
    ensures |cs| <= 1
    ensures cs == [] <==> ParseLogLine(line).None? || ParseLogLine(line).value.hash !in statsOutput
    ensures cs != [] ==>
      var h := ParseLogLine(line).value;
      && cs[0].hash == h.hash && cs[0].shortHash == h.shortHash
      && cs[0].author == h.author && cs[0].subject == h.subject
      && cs[0].stats == ParseCommitStats(statsOutput[h.hash])
  {
    match ParseLogLine(line)
    case None => []
    case Some(h) => if h.hash !in statsOutput then [] else [Detailed(h, statsOutput)]
  }

  /** The commit kept for a header. */
  function Detailed(h: CommitHeader, statsOutput: map<string, Option<JsonValue>>): DetailedCommitStats
    requires h.hash in statsOutput
  {
    DetailedCommitStats(ParseCommitStats(statsOutput[h.hash]), h.hash, h.shortHash, h.author, h.subject)
  }

  /** Every line parses and its stats command succeeds. */
  predicate AllLinesUsable(lines: seq<string>, statsOutput: map<string, Option<JsonValue>>) {
    forall k :: 0 <= k < |lines| ==> ParseLogLine(lines[k]).Some? && ParseLogLine(lines[k]).value.hash in statsOutput
  }

  /** One commit per line, in order. */
  function EveryLineCommit(lines: seq<string>, statsOutput: map<string, Option<JsonValue>>): (cs: seq<DetailedCommitStats>)
    requires AllLinesUsable(lines, statsOutput)
    ensures |cs| == |lines|
    ensures forall k :: 0 <= k < |lines| ==> cs[k] == Detailed(ParseLogLine(lines[k]).value, statsOutput)
  {
    seq(|lines|, k requires 0 <= k < |lines| && AllLinesUsable(lines, statsOutput) =>
      Detailed(ParseLogLine(lines[k]).value, statsOutput))
  }

  /** The collection keeps line order: it maps concatenation to concatenation, so an unusable line adds nothing. */
  lemma {:induction false} CollectCommitsAppend(a: seq<string>, b: seq<string>, statsOutput: map<string, Option<JsonValue>>)
    ensures CollectCommits(a + b, statsOutput) == CollectCommits(a, statsOutput) + CollectCommits(b, statsOutput)
    decreases |b|
  {
    if b == [] {
      assert a + b == a;
    } else {
      var n := |b| - 1;
      var ab := a + b;
      assert ab[..|ab| - 1] == a + b[..n];
      assert ab[|ab| - 1] == b[n];
      var ca, cb, k := CollectCommits(a, statsOutput), CollectCommits(b[..n], statsOutput), KeptFor(b[n], statsOutput);
      CollectCommitsAppend(a, b[..n], statsOutput);
      CollectCommitsLast(ab, statsOutput);
      CollectCommitsLast(b, statsOutput);
      AppendAssoc(ca, cb, k);
    }
  }

  /** A line that does not parse, or whose stats command fails, is skipped: the others are collected as without it. */
  lemma UnusableLineSkipped(a: seq<string>, line: string, b: seq<string>, statsOutput: map<string, Option<JsonValue>>)
    requires ParseLogLine(line).None? || ParseLogLine(line).value.hash !in statsOutput
    ensures CollectCommits(a + [line] + b, statsOutput) == CollectCommits(a + b, statsOutput)
  {
    CollectCommitsAppend(a + [line], b, statsOutput);
    CollectCommitsAppend(a, [line], statsOutput);
    CollectCommitsAppend(a, b, statsOutput);
    assert CollectCommits([line], statsOutput) == [];
    assert CollectCommits(a, statsOutput) + [] == CollectCommits(a, statsOutput);
  }

  lemma AppendAssoc<T>(x: seq<T>, y: seq<T>, z: seq<T>)
    ensures (x + y) + z == x + (y + z)
  {
  }

  lemma CollectCommitsLast(lines: seq<string>, statsOutput: map<string, Option<JsonValue>>)
    requires lines != []
    ensures CollectCommits(lines, statsOutput) == CollectCommits(lines[..|lines| - 1], statsOutput) + KeptFor(lines[|lines| - 1], statsOutput)
  {
  }

  /** When every line parses and every stats command succeeds, every line is kept, in order. */
  lemma {:induction false} CollectKeepsEveryLine(lines: seq<string>, statsOutput: map<string, Option<JsonValue>>)
    requires AllLinesUsable(lines, statsOutput)
    ensures CollectCommits(lines, statsOutput) == EveryLineCommit(lines, statsOutput)
  {
    if lines != [] {
      var n := |lines| - 1;
      UsablePrefix(lines, statsOutput);
      CollectKeepsEveryLine(lines[..n], statsOutput);
      EveryLineCommitLast(lines, statsOutput);
    }
  }

  lemma UsablePrefix(lines: seq<string>, statsOutput: map<string, Option<JsonValue>>)
    requires lines != [] && AllLinesUsable(lines, statsOutput)
    ensures AllLinesUsable(lines[..|lines| - 1], statsOutput)
    ensures ParseLogLine(lines[|lines| - 1]).Some? && ParseLogLine(lines[|lines| - 1]).value.hash in statsOutput
  {
    var prefix := lines[..|lines| - 1];
    forall k | 0 <= k < |prefix| ensures prefix[k] == lines[k] {
    }
  }

  /** `EveryLineCommit` extends by the last line's commit. */
  lemma EveryLineCommitLast(lines: seq<string>, statsOutput: map<string, Option<JsonValue>>)
    requires lines != [] && AllLinesUsable(lines, statsOutput)
    requires AllLinesUsable(lines[..|lines| - 1], statsOutput)
    ensures EveryLineCommit(lines, statsOutput) ==
      EveryLineCommit(lines[..|lines| - 1], statsOutput) + [Detailed(ParseLogLine(lines[|lines| - 1]).value, statsOutput)]
  {
    var n := |lines| - 1;
    var all := EveryLineCommit(lines, statsOutput);
    var rhs := EveryLineCommit(lines[..n], statsOutput) + [Detailed(ParseLogLine(lines[n]).value, statsOutput)];
    forall k | 0 <= k < |all| ensures all[k] == rhs[k] {
      if k < n {
        assert lines[..n][k] == lines[k];
      }
    }
    assert all == rhs;
  }

  /** Field-wise `Int` addition. */
  function AddStats(a: CommitStats, b: CommitStats): (r: CommitStats)
    ensures forall f :: INT_MIN <= Field(r, f) <= INT_MAX
    ensures forall f :: (Field(r, f) - (Field(a, f) + Field(b, f))) % TWO_32 == 0
  {
    CommitStats(
      Add32(a.humanAdditions, b.humanAdditions),
      Add32(a.mixedAdditions, b.mixedAdditions),
      Add32(a.aiAdditions, b.aiAdditions),
      Add32(a.aiAccepted, b.aiAccepted),
      Add32(a.totalAiAdditions, b.totalAiAdditions),
      Add32(a.totalAiDeletions, b.totalAiDeletions),
      Add32(a.gitDiffDeletedLines, b.gitDiffDeletedLines),
      Add32(a.gitDiffAddedLines, b.gitDiffAddedLines))
  }

  /** The aggregate the second loop builds. */
  function Aggregate(commits: seq<DetailedCommitStats>): CommitStats {
    if commits == [] then ZeroStats()
    else AddStats(Aggregate(commits[..|commits| - 1]), commits[|commits| - 1].stats)
  }

  function Project(commits: seq<DetailedCommitStats>, f: StatField): (xs: seq<int>)
    ensures |xs| == |commits|
    ensures forall i :: 0 <= i < |commits| ==> xs[i] == Field(commits[i].stats, f)
  {
    seq(|commits|, i requires 0 <= i < |commits| => Field(commits[i].stats, f))
  }

  /** Each aggregated field is the wrapped sum of that field over the commits. */
  lemma {:induction false} AggregateIsFieldwiseSum(commits: seq<DetailedCommitStats>, f: StatField)
    ensures Field(Aggregate(commits), f) == Sum32(Project(commits, f))
  {
    if commits != [] {
      var n := |commits| - 1;
      AggregateIsFieldwiseSum(commits[..n], f);
      assert Project(commits, f)[..n] == Project(commits[..n], f);
    }
  }

  /** Without overflow each aggregated count is the exact sum. */
  lemma AggregateExact(commits: seq<DetailedCommitStats>, f: StatField)
    requires forall i :: 0 <= i < |commits| ==> Field(commits[i].stats, f) >= 0
    requires Sum(Project(commits, f)) <= INT_MAX
    ensures Field(Aggregate(commits), f) == Sum(Project(commits, f))
  {
    AggregateIsFieldwiseSum(commits, f);
    Sum32Exact(Project(commits, f));
  }

  /**
   * `getRecentStats` as a value: none for a depth below 1, without a project
   * directory, when the log command fails or prints no line, and when no
   * commit survives.
   */
  function RecentStats(depth: int, basePath: Option<string>, logOutput: Option<string>,
                       statsOutput: map<string, Option<JsonValue>>): (r: Option<RecentCommitsData>)
    ensures depth < 1 || basePath.None? || logOutput.None? ==> r.None?
    ensures r.Some? ==> r.value.commits != [] && r.value.aggregated == Aggregate(r.value.commits)
    ensures r.Some? ==> r.value.commits == CollectCommits(NonBlank(Lines(logOutput.value)), statsOutput)
    ensures (depth >= 1 && basePath.Some? && logOutput.Some? &&
             CollectCommits(NonBlank(Lines(logOutput.value)), statsOutput) != []) ==> r.Some?
  {
    if depth < 1 || basePath.None? || logOutput.None? then None
    else
      var lines := NonBlank(Lines(logOutput.value));
      if lines == [] then None
      else
        var commits := CollectCommits(lines, statsOutput);
        if commits == [] then None else Some(RecentCommitsData(Aggregate(commits), commits))
  }

  /** The two loops of `getRecentStats`, proved to compute `RecentStats`. */
  method GetRecentStats(depth: int, basePath: Option<string>, logOutput: Option<string>,
                        statsOutput: map<string, Option<JsonValue>>) returns (r: Option<RecentCommitsData>)
    ensures r == RecentStats(depth, basePath, logOutput, statsOutput)
  {
    if depth < 1 || basePath.None? || logOutput.None? {
      return None;
    }
    var lines := NonBlank(Lines(logOutput.value));
    if lines == [] {
      return None;
    }
    var commits := CollectLoop(lines, statsOutput);
    if commits == [] {
      return None;
    }
    var agg := AggregateLoop(commits);
    return Some(RecentCommitsData(agg, commits));
  }

  /** The line loop of `getRecentStats`. */
  method CollectLoop(lines: seq<string>, statsOutput: map<string, Option<JsonValue>>) returns (commits: seq<DetailedCommitStats>)
    ensures commits == CollectCommits(lines, statsOutput)
  {
    commits := [];
    for i := 0 to |lines|
      invariant commits == CollectCommits(lines[..i], statsOutput)
    {
      CollectCommitsNext(lines, statsOutput, i);
      var parts := Split(lines[i], FIELD_SEPARATOR);
      if |parts| < 4 {
        continue;
      }
      var hash := parts[0];
      var shortHash := parts[1];
      var author := parts[2];
      var subject := parts[3];
      if hash !in statsOutput {
        continue;
      }
      var cStats := ParseCommitStats(statsOutput[hash]);
      commits := commits + [DetailedCommitStats(cStats, hash, shortHash, author, subject)];
    }
    assert lines[..|lines|] == lines;
  }

  lemma CollectCommitsNext(lines: seq<string>, statsOutput: map<string, Option<JsonValue>>, i: nat)
    requires i < |lines|
    ensures CollectCommits(lines[..i + 1], statsOutput) == CollectCommits(lines[..i], statsOutput) + KeptFor(lines[i], statsOutput)
  {
    assert lines[..i + 1][..i] == lines[..i];
  }

  /** The summing loop of `getRecentStats`. */
  method AggregateLoop(commits: seq<DetailedCommitStats>) returns (agg: CommitStats)
    ensures agg == Aggregate(commits)
  {
    agg := ZeroStats();
    for i := 0 to |commits|
      invariant agg == Aggregate(commits[..i])
    {
      assert commits[..i + 1][..i] == commits[..i];
      var c := commits[i].stats;
      agg := agg.(
        humanAdditions := Add32(agg.humanAdditions, c.humanAdditions),
        mixedAdditions := Add32(agg.mixedAdditions, c.mixedAdditions),
        aiAdditions := Add32(agg.aiAdditions, c.aiAdditions),
        aiAccepted := Add32(agg.aiAccepted, c.aiAccepted),
        totalAiAdditions := Add32(agg.totalAiAdditions, c.totalAiAdditions),
        totalAiDeletions := Add32(agg.totalAiDeletions, c.totalAiDeletions),
        gitDiffDeletedLines := Add32(agg.gitDiffDeletedLines, c.gitDiffDeletedLines),
        gitDiffAddedLines := Add32(agg.gitDiffAddedLines, c.gitDiffAddedLines));
    }
    assert commits[..|commits|] == commits;
  }
}
