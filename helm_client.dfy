/** The deployer's `HelmClient`: helm command lines for install and
    uninstall, the errors raised when helm fails, and the in-place patching
    of a values file.  What the helm subprocess does is a parameter: its
    output, its failure with a return code, or a missing executable; whether
    the chart path is a directory and the values file's content are
    parameters too. */
module HelmClient {
  import opened Wrappers
  import Text

  /** Which of `HelmError`, `HelmInstallError` and `HelmUninstallError`. */
  datatype ErrorKind = BaseError | InstallError | UninstallError

  /** `HelmError` and its two subclasses. */
  datatype HelmError = HelmError(kind: ErrorKind, message: string, command: seq<string>,
                                 returnCode: Option<int>, output: Option<string>)

  /** The other exceptions the client raises. */
  datatype ClientError = ValueError(message: string) | FileNotFound(path: string) | Helm(error: HelmError)

  /** What running a helm command does. */
  datatype Outcome = Completed(output: string) | Failed(returnCode: int, output: string) | MissingExecutable

  /** The message and the command line, always present. */
  function Head(e: HelmError): string {
    e.message + " \nDetails:\nCommand: " + Text.Join(e.command, " ") + "\n"
  }

  function CodePart(e: HelmError): string {
    if e.returnCode.Some? then "Return Code: " + Text.IntToString(e.returnCode.value) + "\n" else ""
  }

  /** An output that is None or empty is falsy and left out. */
  function OutputPart(e: HelmError): string {
    if e.output.Some? && e.output.value != [] then "Output:\n" + e.output.value + "\n" else ""
  }

  /** `HelmError.__str__`. */
  function Describe(e: HelmError): string {
    Head(e) + CodePart(e) + OutputPart(e)
  }

  /** Without a return code and without output, the text is the message and
      the command only. */
  lemma DescribeCommandOnly(e: HelmError)
    requires e.returnCode.None? && (e.output.None? || e.output.value == [])
    ensures Describe(e) == e.message + " \nDetails:\nCommand: " + Text.Join(e.command, " ") + "\n"
  {
  }

  /** The text always starts with the message and the command line. */
  lemma DescribeStartsWithCommand(e: HelmError)
    ensures Text.StartsWith(Describe(e), Head(e))
  {
    assert Describe(e)[..|Head(e)|] == Head(e);
  }

  /** A return code that is present is listed right after the command. */
  lemma DescribeListsReturnCode(e: HelmError)
    requires e.returnCode.Some?
    ensures Text.OccursAt(Describe(e), "Return Code: " + Text.IntToString(e.returnCode.value) + "\n", |Head(e)|)
  {
    assert Describe(e)[|Head(e)|..|Head(e)| + |CodePart(e)|] == CodePart(e);
  }

  /** A non-empty output ends the text. */
  lemma DescribeEndsWithOutput(e: HelmError)
    requires e.output.Some? && e.output.value != []
    ensures Text.EndsWith(Describe(e), "Output:\n" + e.output.value + "\n")
  {
    assert Describe(e) == (Head(e) + CodePart(e)) + OutputPart(e);
  }

  /** `_run_command`: the executable followed by the arguments; a failure
      becomes a `HelmError` carrying the command, and the return code and
      output when the process ran. */
  function RunCommand(executable: string, args: seq<string>, outcome: Outcome): (r: Result<string, HelmError>)
    ensures r.Ok? <==> outcome.Completed?
    ensures r.Ok? ==> r.value == outcome.output
    ensures r.Err? ==> r.error.kind == BaseError && r.error.command == [executable] + args
    ensures r.Err? ==> (r.error.returnCode.Some? <==> outcome.Failed?) && (r.error.output.Some? <==> outcome.Failed?)
    ensures outcome.Failed? ==> r.error.output == Some(if outcome.output == [] then "No output captured." else outcome.output)
  {
    var command := [executable] + args;
    match outcome
    case Completed(output) => Ok(output)
    case Failed(code, output) =>
      Err(HelmError(BaseError, "Helm command failed.", command, Some(code),
                    Some(if output == [] then "No output captured." else output)))
    case MissingExecutable =>
      Err(HelmError(BaseError, "Helm executable '" + executable + "' not found.", command, None, None))
  }

  /** The `--set key=value` flags, one pair per entry, in order. */
  function SetFlags(setValues: seq<(string, string)>): seq<string> {
    if setValues == [] then []
    else var last := setValues[|setValues| - 1];
      SetFlags(setValues[..|setValues| - 1]) + ["--set", last.0 + "=" + last.1]
  }

  /** The arguments of `helm install`. */
  function InstallArgs(releaseName: string, namespace: string, valuesFile: Option<string>,
                       setValues: seq<(string, string)>): seq<string>
  {
    ["install", releaseName, ".", "-n", namespace, "--create-namespace"]
    + (if valuesFile.Some? && valuesFile.value != [] then ["-f", valuesFile.value] else [])
    + SetFlags(setValues)
  }

  /** The `--set` flags come in pairs: flag, then `key=value`. */
  lemma {:induction false} SetFlagsPairs(setValues: seq<(string, string)>)
    ensures |SetFlags(setValues)| == 2 * |setValues|
    ensures forall i :: 0 <= i < |setValues| ==>
              SetFlags(setValues)[2 * i] == "--set" &&
              SetFlags(setValues)[2 * i + 1] == setValues[i].0 + "=" + setValues[i].1
  {
    if setValues != [] {
      var front := setValues[..|setValues| - 1];
      SetFlagsPairs(front);
      assert forall i :: 0 <= i < |front| ==> front[i] == setValues[i];
    }
  }

  /** The install command line: release, chart directory `.`, namespace and
      `--create-namespace` first, then `-f` with a non-empty values file,
      then a `--set` pair per entry. */
  lemma InstallArgsLayout(releaseName: string, namespace: string, valuesFile: Option<string>,
                          setValues: seq<(string, string)>)
    ensures var args := InstallArgs(releaseName, namespace, valuesFile, setValues);
            var f := if valuesFile.Some? && valuesFile.value != [] then 2 else 0;
            |args| == 6 + f + 2 * |setValues| &&
            args[..6] == ["install", releaseName, ".", "-n", namespace, "--create-namespace"] &&
            (f == 2 ==> args[6] == "-f" && args[7] == valuesFile.value) &&
            forall i :: 0 <= i < |setValues| ==>
              args[6 + f + 2 * i] == "--set" && args[6 + f + 2 * i + 1] == setValues[i].0 + "=" + setValues[i].1
  {
    SetFlagsPairs(setValues);
    var args := InstallArgs(releaseName, namespace, valuesFile, setValues);
    var fixed := ["install", releaseName, ".", "-n", namespace, "--create-namespace"];
    var file := if valuesFile.Some? && valuesFile.value != [] then ["-f", valuesFile.value] else [];
    var flags := SetFlags(setValues);
    assert args == (fixed + file) + flags;
    assert args[..6] == fixed;
    forall i | 0 <= i < |setValues|
      ensures args[6 + |file| + 2 * i] == "--set"
      ensures args[6 + |file| + 2 * i + 1] == setValues[i].0 + "=" + setValues[i].1
    {
      assert args[6 + |file| + 2 * i] == flags[2 * i];
      assert args[6 + |file| + 2 * i + 1] == flags[2 * i + 1];
    }
  }

  /** The loop of `install` that extends the argument list. */
  method BuildInstallArgs(releaseName: string, namespace: string, valuesFile: Option<string>,
                          setValues: seq<(string, string)>) returns (args: seq<string>)
    ensures args == InstallArgs(releaseName, namespace, valuesFile, setValues)
  {
    args := ["install", releaseName, "."];
    args := args + ["-n", namespace];
    args := args + ["--create-namespace"];
    if valuesFile.Some? && valuesFile.value != [] {
      args := args + ["-f", valuesFile.value];
    }
    ghost var head := args;
    for i := 0 to |setValues|
      invariant args == head + SetFlags(setValues[..i])
    {
      assert setValues[..i + 1][..i] == setValues[..i];
      args := args + ["--set", setValues[i].0 + "=" + setValues[i].1];
    }
    assert setValues[..|setValues|] == setValues;
  }

  /** `install`: a chart path that is not a directory raises `ValueError`;
      every helm failure, and output without "STATUS: deployed", raises
      `HelmInstallError` with the full command. */
  method Install(executable: string, releaseName: string, chartIsDir: bool, namespace: string,
                 valuesFile: Option<string>, setValues: seq<(string, string)>, outcome: Outcome)
    returns (r: Result<string, ClientError>)
    ensures !chartIsDir ==> r.Err? && r.error.ValueError?
    ensures r.Ok? <==> chartIsDir && outcome.Completed? && Text.Contains(outcome.output, "STATUS: deployed")
    ensures r.Ok? ==> r.value == outcome.output
    ensures chartIsDir && r.Err? ==>
              r.error.Helm? && r.error.error.kind == InstallError &&
              r.error.error.command == [executable] + InstallArgs(releaseName, namespace, valuesFile, setValues) &&
              (r.error.error.returnCode.Some? <==> outcome.Failed?)
  {
    var args := BuildInstallArgs(releaseName, namespace, valuesFile, setValues);
    if !chartIsDir {
      return Err(ValueError("chart_path must be a directory for this simplified install method."));
    }
    var run := RunCommand(executable, args, outcome);
    if run.Err? {
      var e := run.error;
      return Err(Helm(HelmError(InstallError, "Helm installation failed for release '" + releaseName + "'.",
                                e.command, e.returnCode, e.output)));
    }
    if !Text.Contains(run.value, "STATUS: deployed") {
      return Err(Helm(HelmError(InstallError, "Helm install command output did not confirm deployment.",
                                [executable] + args, None, Some(run.value))));
    }
    return Ok(run.value);
  }

  /** The arguments of `helm uninstall`. */
  function UninstallArgs(releaseName: string, namespace: string): seq<string> {
    ["uninstall", releaseName, "-n", namespace]
  }

  /** `uninstall`: helm's output, or `HelmUninstallError` carrying the failed
      command's details. */
  function Uninstall(executable: string, releaseName: string, namespace: string, outcome: Outcome)
    : (r: Result<string, ClientError>)
    ensures r.Ok? <==> outcome.Completed?
    ensures r.Err? ==> r.error.Helm? && r.error.error.kind == UninstallError &&
                       r.error.error.command == [executable, "uninstall", releaseName, "-n", namespace] &&
                       r.error.error.returnCode == (if outcome.Failed? then Some(outcome.returnCode) else None)
  {
    match RunCommand(executable, UninstallArgs(releaseName, namespace), outcome)
    case Ok(output) => Ok(output)
    case Err(e) =>
      Err(Helm(HelmError(UninstallError, "Helm uninstallation failed for release '" + releaseName + "'.",
                         e.command, e.returnCode, e.output)))
  }

  /** The content after applying the patches in order, each a global
      replacement. */
  function Patched(content: string, patches: seq<(string, string)>): string {
    if patches == [] then content
    else var last := patches[|patches| - 1];
      Text.Replace(Patched(content, patches[..|patches| - 1]), last.0, last.1)
  }

  /** Patching in two rounds is patching once with both lists. */
  lemma {:induction false} PatchedInRounds(content: string, first: seq<(string, string)>, second: seq<(string, string)>)
    ensures Patched(content, first + second) == Patched(Patched(content, first), second)
  {
    if second != [] {
      var all := first + second;
      assert all[..|all| - 1] == first + second[..|second| - 1];
      PatchedInRounds(content, first, second[..|second| - 1]);
    } else {
      assert first + second == first;
    }
  }

  /** Patches whose placeholders never occur leave the content as it is. */
  lemma {:induction false} AbsentPlaceholdersChangeNothing(content: string, patches: seq<(string, string)>)
    requires forall i :: 0 <= i < |patches| ==> patches[i].0 != [] && !Text.Contains(content, patches[i].0)
    ensures Patched(content, patches) == content
  {
    if patches != [] {
      var front := patches[..|patches| - 1];
      var last := patches[|patches| - 1];
      assert forall i :: 0 <= i < |front| ==> front[i] == patches[i];
      AbsentPlaceholdersChangeNothing(content, front);
      Text.CountPositiveIffContains(content, last.0);
      Text.ReplaceAbsent(content, last.0, last.1);
    }
  }

  /** `patch_values_file` on the file's content (None when it does not exist):
      a missing file raises `FileNotFoundError`; otherwise the new content is
      written back, as `Some`, only when the patches changed it. */
  method PatchValuesFile(path: string, content: Option<string>, patches: seq<(string, string)>)
    returns (r: Result<Option<string>, ClientError>)
    ensures content.None? <==> r.Err?
    ensures r.Err? ==> r.error == FileNotFound(path)
    ensures r.Ok? ==> var patched := Patched(content.value, patches);
                      r.value == (if patched != content.value then Some(patched) else None)
  {
    if content.None? {
      return Err(FileNotFound(path));
    }
    var text := content.value;
    var original := text;
    for i := 0 to |patches|
      invariant text == Patched(original, patches[..i])
    {
      assert patches[..i + 1][..i] == patches[..i];
      text := Text.Replace(text, patches[i].0, patches[i].1);
    }
    assert patches[..|patches|] == patches;
    if text != original {
      return Ok(Some(text));
    }
    return Ok(None);
  }
}
