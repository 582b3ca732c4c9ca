/** `_run_vi_build` and `_labview_ci`: the g-cli command line that builds the
    project with LVBuild.vi. Running it, and the `git reset --hard` after it,
    are external processes and are not modelled; the command is the result. */
module Build {
  import opened Results
  import opened Text
  import opened Paths
  import opened ProjectFile
  import opened Versioning

  /** One argument after g-cli's `--`: `-Name "value"` or a bare `"value"`. */
  datatype Arg = Named(name: string, value: string) | Positional(value: string)

  const DebugFlag: Arg := Named("Debug", "True")

  /** The text of one argument, with the leading space the recipe writes. */
  function RenderArg(a: Arg): string {
    match a
    case Named(n, v) => " -" + n + " \"" + v + "\""
    case Positional(v) => " \"" + v + "\""
  }

  function Render(args: seq<Arg>): string {
    if |args| == 0 then "" else RenderArg(args[0]) + Render(args[1..])
  }

  /** An argument that can be read back from its text: a name without
      spaces, and no double quote inside the quoted value. */
  predicate Readable(a: Arg) {
    match a
    case Named(n, v) => ' ' !in n && '"' !in v
    case Positional(v) => '"' !in v
  }

  /** A quoted value up to its closing quote, and the text after it. */
  function ReadQuoted(s: string): (r: Option<(string, string)>)
    ensures r.Some? ==> |r.value.1| < |s|
  {
    var v := TakeUntil(s, '"');
    if |v| == |s| then None else Some((v, s[|v| + 1..]))
  }

  /** Reads the first argument of `s`, which starts with a space, and
      returns it with the text after it. */
  function ReadArg(s: string): (r: Option<(Arg, string)>)
    requires |s| >= 2 && s[0] == ' '
    ensures r.Some? ==> |r.value.1| < |s|
  {
    if s[1] == '"' then
      match ReadQuoted(s[2..])
      case None => None
      case Some((v, rest)) => Some((Positional(v), rest))
    else if s[1] == '-' then
      var name := TakeUntil(s[2..], ' ');
      var afterName := s[2 + |name|..];
      if |afterName| < 2 || afterName[1] != '"' then None
      else
        match ReadQuoted(afterName[2..])
        case None => None
        case Some((v, rest)) => Some((Named(name, v), rest))
    else None
  }

  /** Reads an argument string back into its arguments; `None` when the
      text is not a sequence of rendered arguments. */
  function ParseArgs(s: string): Option<seq<Arg>>
    decreases |s|
  {
    if |s| == 0 then Some([])
    else if |s| < 2 || s[0] != ' ' then None
    else
      match ReadArg(s)
      case None => None
      case Some((a, rest)) =>
        match ParseArgs(rest)
        case None => None
        case Some(tail) => Some([a] + tail)
  }

  lemma ReadQuotedStops(v: string, rest: string)
    requires '"' !in v
    ensures ReadQuoted(v + "\"" + rest) == Some((v, rest))
  {
    TakeUntilStops(v, '"', rest);
    assert (v + "\"" + rest)[|v| + 1..] == rest;
  }

  lemma ReadNamed(n: string, v: string, rest: string)
    requires ' ' !in n && '"' !in v
    ensures |RenderArg(Named(n, v)) + rest| >= 2 && (RenderArg(Named(n, v)) + rest)[0] == ' '
    ensures ReadArg(RenderArg(Named(n, v)) + rest) == Some((Named(n, v), rest))
  {
    var quoted := v + "\"" + rest;
    var afterName := " \"" + quoted;
    var s := " -" + (n + afterName);
    assert RenderArg(Named(n, v)) + rest == s;
    assert s[1] == '-';
    assert TakeUntil(s[2..], ' ') == n by {
      assert s[2..] == n + [' '] + ("\"" + quoted);
      TakeUntilStops(n, ' ', "\"" + quoted);
    }
    assert s[2 + |n|..] == afterName;
    assert afterName[1] == '"' && afterName[2..] == quoted;
    ReadQuotedStops(v, rest);
  }

  lemma ReadPositional(v: string, rest: string)
    requires '"' !in v
    ensures |RenderArg(Positional(v)) + rest| >= 2 && (RenderArg(Positional(v)) + rest)[0] == ' '
    ensures ReadArg(RenderArg(Positional(v)) + rest) == Some((Positional(v), rest))
  {
    var quoted := v + "\"" + rest;
    var s := " \"" + quoted;
    assert RenderArg(Positional(v)) + rest == s;
    assert s[2..] == quoted;
    ReadQuotedStops(v, rest);
  }

  /** Reading the rendered arguments gives back exactly those arguments. */
  lemma {:induction false} ParseRenderRoundTrip(args: seq<Arg>)
    requires forall i :: 0 <= i < |args| ==> Readable(args[i])
    ensures ParseArgs(Render(args)) == Some(args)
    decreases |args|
  {
    if |args| > 0 {
      ReadableTail(args);
      ParseRenderRoundTrip(args[1..]);
      ParseRenderStep(args[0], args[1..]);
      assert [args[0]] + args[1..] == args;
    }
  }

  lemma ReadableTail(args: seq<Arg>)
    requires |args| > 0 && forall i :: 0 <= i < |args| ==> Readable(args[i])
    ensures Readable(args[0]) && forall i :: 0 <= i < |args[1..]| ==> Readable(args[1..][i])
  {
    forall i | 0 <= i < |args[1..]| ensures Readable(args[1..][i]) {
      assert args[1..][i] == args[i + 1];
    }
  }

  /** One more readable argument in front keeps the round trip. */
  lemma ParseRenderStep(a: Arg, tail: seq<Arg>)
    requires Readable(a) && ParseArgs(Render(tail)) == Some(tail)
    ensures ParseArgs(Render([a] + tail)) == Some([a] + tail)
  {
    var rest := Render(tail);
    RenderCons(a, tail);
    ReadRendered(a, rest);
    ParseArgsStep(RenderArg(a) + rest, a, rest, tail);
  }

  lemma ReadRendered(a: Arg, rest: string)
    requires Readable(a)
    ensures |RenderArg(a) + rest| >= 2 && (RenderArg(a) + rest)[0] == ' '
    ensures ReadArg(RenderArg(a) + rest) == Some((a, rest))
  {
    match a {
      case Named(n, v) => ReadNamed(n, v, rest);
      case Positional(v) => ReadPositional(v, rest);
    }
  }

  lemma ParseArgsStep(s: string, a: Arg, rest: string, tail: seq<Arg>)
    requires |s| >= 2 && s[0] == ' '
    requires ReadArg(s) == Some((a, rest)) && ParseArgs(rest) == Some(tail)
    ensures ParseArgs(s) == Some([a] + tail)
  {
  }

  /** The LVBuild.vi arguments: `-Version` first, then `-Branch`, then
      `-Debug "True"` exactly when the branch is not the primary branch,
      and the project path last. */
  function BuildArguments(version: string, branch: string, projectPath: string): (args: seq<Arg>)
    ensures |args| == (if branch == PrimaryBranch then 3 else 4)
    ensures args[0] == Named("Version", version) && args[1] == Named("Branch", branch)
    ensures args[|args| - 1] == Positional(projectPath)
    ensures DebugFlag in args <==> branch != PrimaryBranch
  {
    [Named("Version", version), Named("Branch", branch)]
    + (if branch != PrimaryBranch then [DebugFlag] else [])
    + [Positional(projectPath)]
  }

  /** The `build_params` string; whenever the version, branch and path hold
      no double quote, reading it back gives the build arguments, so the
      string carries `-Debug "True"` exactly off the primary branch. */
  function BuildParams(version: string, branch: string, projectPath: string): (params: string)
    ensures '"' !in version && '"' !in branch && '"' !in projectPath ==>
      ParseArgs(params) == Some(BuildArguments(version, branch, projectPath))
  {
    var args := BuildArguments(version, branch, projectPath);
    assert '"' !in version && '"' !in branch && '"' !in projectPath ==> ParseArgs(Render(args)) == Some(args) by {
      if '"' !in version && '"' !in branch && '"' !in projectPath {
        ParseRenderRoundTrip(args);
      }
    }
    Render(args)
  }

  lemma RenderCons(a: Arg, rest: seq<Arg>)
    ensures Render([a] + rest) == RenderArg(a) + Render(rest)
  {
    assert ([a] + rest)[1..] == rest;
  }

  lemma RenderThree(a: Arg, b: Arg, c: Arg)
    ensures Render([a, b, c]) == RenderArg(a) + (RenderArg(b) + RenderArg(c))
  {
    RenderCons(c, []);
    RenderCons(b, [c]);
    assert [b] + [c] == [b, c];
    RenderCons(a, [b, c]);
    assert [a] + [b, c] == [a, b, c];
  }

  lemma RenderFour(a: Arg, b: Arg, c: Arg, d: Arg)
    ensures Render([a, b, c, d]) == RenderArg(a) + (RenderArg(b) + (RenderArg(c) + RenderArg(d)))
  {
    RenderThree(b, c, d);
    RenderCons(a, [b, c, d]);
    assert [a] + [b, c, d] == [a, b, c, d];
  }

  /** The parameters are the text the recipe concatenates. */
  lemma BuildParamsText(version: string, branch: string, projectPath: string)
    ensures BuildParams(version, branch, projectPath) ==
      (" -Version \"" + version + "\"")
      + (" -Branch \"" + branch + "\"")
      + (if branch != PrimaryBranch then " -Debug \"True\"" else "")
      + (" \"" + projectPath + "\"")
  {
    var v := Named("Version", version);
    var b := Named("Branch", branch);
    var p := Positional(projectPath);
    var rv, rb, rp := RenderArg(v), RenderArg(b), RenderArg(p);
    assert rv == " -Version \"" + version + "\"" by {
      assert " -" + "Version" + " \"" == " -Version \"";
    }
    assert rb == " -Branch \"" + branch + "\"" by {
      assert " -" + "Branch" + " \"" == " -Branch \"";
    }
    var debug := if branch != PrimaryBranch then " -Debug \"True\"" else "";
    if branch != PrimaryBranch {
      assert RenderArg(DebugFlag) == debug by {
        assert " -" + "Debug" + " \"" + "True" + "\"" == " -Debug \"True\"";
      }
      RenderFour(v, b, DebugFlag, p);
      assert BuildArguments(version, branch, projectPath) == [v, b, DebugFlag, p];
    } else {
      RenderThree(v, b, p);
      assert BuildArguments(version, branch, projectPath) == [v, b, p];
      assert rp == debug + rp;
    }
    assert BuildParams(version, branch, projectPath) == rv + (rb + (debug + rp));
    AppendFour(rv, rb, debug, rp);
  }

  lemma AppendFour(a: string, b: string, c: string, d: string)
    ensures a + (b + (c + d)) == a + b + c + d
  {
  }

  /** Where g-cli's tools live in a LabVIEW installation of the given year. */
  function GCliToolsDir(lvYear: string): (dir: string)
    ensures |dir| > 0 && dir[|dir| - 1] == '\\'
  {
    "C:\\Program Files (x86)\\National Instruments\\LabVIEW " + lvYear + "\\vi.lib\\G CLI Tools\\"
  }

  /** The start of every g-cli command line, up to the quoted VI path. */
  function CommandHead(lvYear: string): string {
    "g-cli --kill --lv-ver " + lvYear + " --timeout 60000 "
  }

  /** `_labview_ci`: the g-cli command line that runs `command` from the
      g-cli tools of LabVIEW `lvYear` with `parameters`. The recipe writes
      two spaces before the quoted VI path. */
  function LabVIEWCiCommand(command: string, parameters: string, lvYear: string): (cmd: string)
    ensures StartsWith(cmd, CommandHead(lvYear))
    ensures EndsWith(cmd, " -- " + parameters)
    ensures cmd == CommandHead(lvYear) + ((" \"" + (GCliToolsDir(lvYear) + command) + "\"") + (" -- " + parameters))
  {
    var head := CommandHead(lvYear);
    var dir := GCliToolsDir(lvYear);
    var tail := " -- " + parameters;
    JoinAfterSeparator(dir, command);
    var vi := " \"" + JoinWindows(dir, command) + "\"";
    ConcatPieces(head, vi, tail);
    head + (vi + tail)
  }

  /** The project file path in the source folder, as both the build and
      the LabVIEW version lookup build it. */
  function ProjectPath(sourceFolder: string, listing: seq<string>): (path: string)
    ensures var file := FindProjectFile(listing) + ProjectExtension;
      path == if AddsSeparator(sourceFolder) then sourceFolder + "\\" + file else sourceFolder + file
  {
    JoinWindows(sourceFolder, FindProjectFile(listing) + ProjectExtension)
  }

  datatype BuildError =
    | BranchUnset                 // the class attribute `branch` was never assigned
    | Project(error: ProjectError)

  /** The body of `_run_vi_build` once the project file paths are known:
      the stored branch is read first, then the LabVIEW year from
      `projects`, what parsing the file at `parsedPath` gave; the build
      parameters name `buildPath`. */
  function ViBuildCommand(version: string, branch: Option<string>, buildPath: string, parsedPath: string,
                          projects: Option<seq<Attributes>>): Result<string, BuildError>
  {
    match branch
    case None => Failure(BranchUnset)
    case Some(b) =>
      match LabVIEWVersion(parsedPath, projects)
      case Failure(e) => Failure(Project(e))
      case Success(lvYear) =>
        Success(LabVIEWCiCommand("LVBuild.vi", BuildParams(version, b, buildPath), lvYear))
  }

  /** `_run_vi_build`, given the version and stored branch that `set_version`
      left, the source folder, and `parse`, the `Project` elements of the
      XML file at a path (`None` when parsing raised). The source folder is
      listed twice: `listing` when the build parameters are assembled, and
      `relisting` when `_get_labview_version` looks the project file up
      again. The file read is the project file of `relisting`; the command
      names the project file of `listing` last. */
  function RunViBuild(version: string, branch: Option<string>, sourceFolder: string,
                      listing: seq<string>, relisting: seq<string>,
                      parse: string -> Option<seq<Attributes>>): (r: Result<string, BuildError>)
    ensures branch.None? ==> r == Failure(BranchUnset)
    ensures branch.Some? && parse(ProjectPath(sourceFolder, relisting)).None? ==>
      r == Failure(Project(ProjectUnreadable(ProjectPath(sourceFolder, relisting))))
    ensures
      && branch.Some?
      && parse(ProjectPath(sourceFolder, relisting)).Some?
      && |parse(ProjectPath(sourceFolder, relisting)).value| == 0
      ==> r == Failure(Project(NoProjectElement))
    ensures
      && branch.Some?
      && parse(ProjectPath(sourceFolder, relisting)).Some?
      && |parse(ProjectPath(sourceFolder, relisting)).value| > 0
      ==> r.Success?
    ensures r.Success? ==>
      var parsedPath := ProjectPath(sourceFolder, relisting);
      var year := LabVIEWVersion(parsedPath, parse(parsedPath));
      && branch.Some? && year.Success?
      && r.value == CommandHead(year.value) + " \"" + GCliToolsDir(year.value) + "LVBuild.vi\"" + " -- "
                    + BuildParams(version, branch.value, ProjectPath(sourceFolder, listing))
    ensures r.Success? ==> EndsWith(r.value, " \"" + ProjectPath(sourceFolder, listing) + "\"")
  {
    var buildPath := ProjectPath(sourceFolder, listing);
    var parsedPath := ProjectPath(sourceFolder, relisting);
    ViBuildCommandText(version, branch, buildPath, parsedPath, parse(parsedPath));
    ViBuildCommandNamesProject(version, branch, buildPath, parsedPath, parse(parsedPath));
    ViBuildCommand(version, branch, buildPath, parsedPath, parse(parsedPath))
  }

  /** A built command is the g-cli head, the quoted `LVBuild.vi` path and
      the build parameters. */
  lemma ViBuildCommandText(version: string, branch: Option<string>, buildPath: string, parsedPath: string,
                           projects: Option<seq<Attributes>>)
    ensures var r := ViBuildCommand(version, branch, buildPath, parsedPath, projects);
      var year := LabVIEWVersion(parsedPath, projects);
      r.Success? ==>
      && branch.Some? && year.Success?
      && r.value == CommandHead(year.value) + " \"" + GCliToolsDir(year.value) + "LVBuild.vi\"" + " -- "
                    + BuildParams(version, branch.value, buildPath)
  {
    var r := ViBuildCommand(version, branch, buildPath, parsedPath, projects);
    if r.Success? {
      var lvYear := LabVIEWVersion(parsedPath, projects).value;
      var params := BuildParams(version, branch.value, buildPath);
      assert r.value == LabVIEWCiCommand("LVBuild.vi", params, lvYear);
      LVBuildCommandText(params, lvYear);
    }
  }

  /** The `LVBuild.vi` command line, written out left to right. */
  lemma LVBuildCommandText(parameters: string, lvYear: string)
    ensures LabVIEWCiCommand("LVBuild.vi", parameters, lvYear)
      == CommandHead(lvYear) + " \"" + GCliToolsDir(lvYear) + "LVBuild.vi\"" + " -- " + parameters
  {
    var head, dir := CommandHead(lvYear), GCliToolsDir(lvYear);
    assert " \"" + (dir + "LVBuild.vi") + "\"" == " \"" + dir + "LVBuild.vi\"";
  }

  /** A built command ends with the quoted project path of the build. */
  lemma ViBuildCommandNamesProject(version: string, branch: Option<string>, buildPath: string, parsedPath: string,
                                   projects: Option<seq<Attributes>>)
    ensures ViBuildCommand(version, branch, buildPath, parsedPath, projects).Success? ==>
      EndsWith(ViBuildCommand(version, branch, buildPath, parsedPath, projects).value, " \"" + buildPath + "\"")
  {
    var r := ViBuildCommand(version, branch, buildPath, parsedPath, projects);
    if r.Success? {
      var lvYear := LabVIEWVersion(parsedPath, projects).value;
      var params := BuildParams(version, branch.value, buildPath);
      var quoted := " \"" + buildPath + "\"";
      assert r.value == LabVIEWCiCommand("LVBuild.vi", params, lvYear);
      assert EndsWith(" -- " + params, quoted) by {
        BuildParamsText(version, branch.value, buildPath);
        assert EndsWith(params, quoted);
        assert (" -- " + params)[|" -- " + params| - |params|..] == params;
        EndsWithTrans(" -- " + params, params, quoted);
      }
      EndsWithTrans(r.value, " -- " + params, quoted);
    }
  }
}
