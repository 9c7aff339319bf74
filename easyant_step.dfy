/**
 * The EasyAnt build step (`EasyAnt.perform`): find the configured
 * installation, locate the build module and build file, assemble the command
 * line, launch it, and map the exit code to the step's result.
 *
 * The host's collaborators enter as function-valued fields of `Build`,
 * `Launcher` and `Host`: variable expansion, FilePath operations, the argument
 * builder's parsing and quoting, and the process launch itself.
 */
module EasyAntStep {
  import opened Wrappers
  import opened Text
  import opened Hudson
  import opened Installation

  /** The step's configuration, as the job stores it. */
  datatype EasyAnt = EasyAnt(
    easyAntName: Option<string>,
    targets: string,
    buildModule: Option<string>,
    buildFile: Option<string>,
    easyAntOpts: Option<string>,
    properties: Option<string>)

  /**
   * The build the step runs in. `buildVariableArgs` is what the argument
   * builder's `addKeyValuePairs("-D", buildVariables, sensitive)` appends.
   */
  datatype Build = Build(env: Env, moduleRoot: FilePath, workspace: FilePath, buildVariableArgs: seq<string>)

  type NonEmptyArgs = s: seq<string> | |s| > 0 witness [""]

  /** What is handed to the process launcher. */
  datatype Invocation = Invocation(cmds: seq<string>, env: Env, pwd: FilePath)

  /** A process that ran to its end, or an IOException while launching or waiting. */
  datatype LaunchOutcome = Exited(code: int) | LaunchFailed

  datatype Launcher = Launcher(isUnix: bool, launch: Invocation -> LaunchOutcome)

  /**
   * Host code the step calls: `EnvVars.expand`, `FilePath.exists`,
   * `FilePath.getName`, `FilePath.toString`, `File.getParent`, and the
   * argument builder's `addKeyValuePairsFromPropertyString`, `addTokenized`
   * and `toWindowsCommand` (which always yields at least one argument).
   */
  datatype Host = Host(
    expand: Expander,
    pathExists: FilePath -> bool,
    nameOf: FilePath -> string,
    render: FilePath -> string,
    parentOf: string -> Option<string>,
    propertyArgs: (Option<string>, Env) -> seq<string>,
    tokenize: string -> seq<string>,
    toWindowsCommand: seq<string> -> NonEmptyArgs)

  /** `listener.error` and `listener.fatalError` entries of the build log. */
  datatype LogEntry = Error(message: string) | FatalError(message: string)

  const NoExecutableMessage := "Can't retrieve the EasyAnt executable."
  const NotFoundMessage := "Unable to find build module or build script at "
  const CommandFailedMessage := "command execution failed"
  const HomeVariable := "EASYANT_HOME"
  const OptsVariable := "EASYANT_OPTS"

  // ---------------------------------------------------------------------
  // Installation lookup

  /** The index of the first installation called `name`. */
  function FirstNamed(installations: seq<EasyAntInstallation>, name: string): (k: Option<nat>)
    ensures k.None? <==> forall i :: 0 <= i < |installations| ==> installations[i].name != name
    ensures k.Some? ==> k.value < |installations| && installations[k.value].name == name
                        && forall j :: 0 <= j < k.value ==> installations[j].name != name
    decreases |installations|
  {
    if installations == [] then None
    else if installations[0].name == name then Some(0)
    else match FirstNamed(installations[1..], name)
      case None => None
      case Some(k) => Some(k + 1)
  }

  /** The installation `getEasyAnt` finds. */
  function Lookup(installations: seq<EasyAntInstallation>, easyAntName: Option<string>): (r: Option<EasyAntInstallation>)
    ensures r.None? <==> easyAntName.None? || forall i :: 0 <= i < |installations| ==> installations[i].name != easyAntName.value
    ensures r.Some? ==> exists k :: 0 <= k < |installations| && installations[k] == r.value
                                    && r.value.name == easyAntName.value
                                    && forall j :: 0 <= j < k ==> installations[j].name != easyAntName.value
  {
    if easyAntName.None? then None
    else match FirstNamed(installations, easyAntName.value)
      case None => None
      case Some(k) => Some(installations[k])
  }

  /**
   * `getEasyAnt`: the first installation whose name equals the configured
   * one; null when no name is configured or none matches.
   */
  method GetEasyAnt(installations: seq<EasyAntInstallation>, easyAntName: Option<string>)
    returns (r: Option<EasyAntInstallation>)
    ensures r.None? <==> easyAntName.None? || forall i :: 0 <= i < |installations| ==> installations[i].name != easyAntName.value
    ensures r.Some? ==> exists k :: 0 <= k < |installations| && installations[k] == r.value
                                    && r.value.name == easyAntName.value
                                    && forall j :: 0 <= j < k ==> installations[j].name != easyAntName.value
    ensures r == Lookup(installations, easyAntName)
  {
    var i := 0;
    while i < |installations|
      invariant 0 <= i <= |installations|
      invariant easyAntName.Some? ==> forall j :: 0 <= j < i ==> installations[j].name != easyAntName.value
    {
      if easyAntName.Some? && installations[i].name == easyAntName.value {
        ghost var k := FirstNamed(installations, easyAntName.value);
        assert k == Some(i) by {
          assert k.Some?;
          assert !(k.value < i) && !(i < k.value);
        }
        return Some(installations[i]);
      }
      i := i + 1;
    }
    return None;
  }

  /** The installation the step runs with: seen from the node, then from the build environment. */
  function ResolvedInstallation(easyAntName: Option<string>, installations: seq<EasyAntInstallation>,
                                env: Env, node: Node, expand: Expander): Option<EasyAntInstallation>
  {
    match Lookup(installations, easyAntName)
    case None => None
    case Some(inst) => Some(ForEnvironment(ForNode(inst, node), env, expand))
  }

  /** The first argument: the installation's script, or the bare command when no installation is configured. */
  function ExecutableArg(resolved: Option<EasyAntInstallation>, isUnix: bool, node: Node, expand: Expander): (r: Option<string>)
    ensures resolved.None? ==> r == Some(if isUnix then "easyant" else "easyant.bat")
    ensures resolved.Some? ==> r == GetExecutable(resolved.value, node, expand)
  {
    if resolved.None? then Some(if isUnix then UnixCommand else WindowsCommand)
    else GetExecutable(resolved.value, node, expand)
  }

  // ---------------------------------------------------------------------
  // Build module and build file

  datatype Resolution = Found(path: FilePath) | Missing(tried: FilePath)

  /**
   * `buildFilePath`: the file under the module root, else the same relative
   * path under the workspace, else missing (reported by its module-root path).
   */
  function BuildFilePath(build: Build, pathExists: FilePath -> bool, file: string): (r: Resolution)
    ensures var underModule := Child(build.moduleRoot, file);
            var underWorkspace := Child(build.workspace, file);
            && (r.Found? <==> pathExists(underModule) || pathExists(underWorkspace))
            && (r.Found? ==> pathExists(r.path) && (r.path == underModule || r.path == underWorkspace))
            && (pathExists(underModule) ==> r == Found(underModule))
            && (r.Missing? ==> r.tried == underModule)
  {
    var underModule := Child(build.moduleRoot, file);
    if pathExists(underModule) then Found(underModule)
    else
      var underWorkspace := Child(build.workspace, file);
      if pathExists(underWorkspace) then Found(underWorkspace)
      else Missing(underModule)
  }

  /** `env.expand` passes null through. */
  function ExpandOpt(expand: Expander, env: Env, s: Option<string>): Option<string>
  {
    match s
    case None => None
    case Some(v) => Some(expand(env, v))
  }

  /** The two arguments for a located module or file: the flag and the file's own name. */
  function FlagArgs(flag: string, at: Option<Resolution>, nameOf: FilePath -> string): seq<string>
  {
    if at.Some? && at.value.Found? then [flag, nameOf(at.value.path)] else []
  }

  // ---------------------------------------------------------------------
  // Targets: `targets.replaceAll("[\t\r\n]+", " ")`

  predicate IsTargetSeparator(c: char)
  {
    c == '\t' || c == '\r' || c == '\n'
  }

  predicate NoTargetSeparator(s: string)
  {
    forall i :: 0 <= i < |s| ==> !IsTargetSeparator(s[i])
  }

  predicate AllTargetSeparators(s: string)
  {
    forall i :: 0 <= i < |s| ==> IsTargetSeparator(s[i])
  }

  /** The text after its leading run of tabs, CRs and LFs. */
  function SkipSeparators(s: string): (r: string)
    ensures |r| <= |s| && r == s[|s| - |r|..]
    ensures r == [] || !IsTargetSeparator(r[0])
    decreases |s|
  {
    if s != [] && IsTargetSeparator(s[0]) then SkipSeparators(s[1..]) else s
  }

  /** Every maximal run of tabs, CRs and LFs becomes one space. */
  function NormaliseTargets(s: string): (r: string)
    ensures |r| <= |s|
    ensures r == [] <==> s == []
    decreases |s|
  {
    if s == [] then []
    else if IsTargetSeparator(s[0]) then " " + NormaliseTargets(SkipSeparators(s))
    else [s[0]] + NormaliseTargets(s[1..])
  }

  /** The skipped prefix is all separators. */
  lemma {:induction false} SkippedAreSeparators(s: string)
    ensures AllTargetSeparators(s[..|s| - |SkipSeparators(s)|])
    decreases |s|
  {
    if s != [] && IsTargetSeparator(s[0]) {
      SkippedAreSeparators(s[1..]);
      var n := |s| - |SkipSeparators(s)|;
      assert forall i :: 1 <= i < n ==> s[i] == s[1..][..n - 1][i - 1];
    }
  }

  /** The result has no tab, CR or LF left. */
  lemma {:induction false} NormaliseRemovesSeparators(s: string)
    ensures NoTargetSeparator(NormaliseTargets(s))
    decreases |s|
  {
    if s != [] {
      if IsTargetSeparator(s[0]) {
        NormaliseRemovesSeparators(SkipSeparators(s));
      } else {
        NormaliseRemovesSeparators(s[1..]);
      }
    }
  }

  /** Text without tabs, CRs and LFs is left unchanged. */
  lemma {:induction false} NormaliseKeepsPlainText(s: string)
    requires NoTargetSeparator(s)
    ensures NormaliseTargets(s) == s
    decreases |s|
  {
    if s != [] {
      assert !IsTargetSeparator(s[0]);
      NormaliseKeepsPlainText(s[1..]);
    }
  }

  lemma {:induction false} SkipAllSeparators(a: string, b: string)
    requires AllTargetSeparators(a)
    ensures SkipSeparators(a + b) == SkipSeparators(b)
    decreases |a|
  {
    if a == [] {
      assert a + b == b;
    } else {
      assert (a + b)[0] == a[0];
      assert (a + b)[1..] == a[1..] + b;
      SkipAllSeparators(a[1..], b);
    }
  }

  /** A run of tabs, CRs and LFs, however long, becomes a single space. */
  lemma NormaliseRun(s: string)
    requires s != [] && AllTargetSeparators(s)
    ensures NormaliseTargets(s) == " "
  {
    SkipAllSeparators(s, []);
    assert s + [] == s;
  }

  lemma {:induction false} SkipSeparatorsAppend(a: string, b: string)
    requires !AllTargetSeparators(a)
    ensures SkipSeparators(a + b) == SkipSeparators(a) + b
    decreases |a|
  {
    if IsTargetSeparator(a[0]) {
      assert (a + b)[0] == a[0];
      assert (a + b)[1..] == a[1..] + b;
      assert !AllTargetSeparators(a[1..]) by {
        var i :| 0 <= i < |a| && !IsTargetSeparator(a[i]);
        assert a[1..][i - 1] == a[i];
      }
      SkipSeparatorsAppend(a[1..], b);
    } else {
      assert (a + b)[0] == a[0];
    }
  }

  /** A word character in front is copied. */
  lemma NormaliseCons(c: char, s: string)
    requires !IsTargetSeparator(c)
    ensures NormaliseTargets([c] + s) == [c] + NormaliseTargets(s)
  {
    assert ([c] + s)[1..] == s;
  }

  /** A separator in front starts a run that becomes one space. */
  lemma NormaliseRunFirst(s: string)
    requires s != [] && IsTargetSeparator(s[0])
    ensures NormaliseTargets(s) == " " + NormaliseTargets(SkipSeparators(s))
  {
  }

  /** A run followed by text that does not continue it. */
  lemma NormaliseAfterRun(a: string, b: string)
    requires a != [] && AllTargetSeparators(a)
    requires b == [] || !IsTargetSeparator(b[0])
    ensures NormaliseTargets(a + b) == " " + NormaliseTargets(b)
    ensures NormaliseTargets(a) == " "
  {
    assert (a + b)[0] == a[0];
    NormaliseRunFirst(a + b);
    SkipAllSeparators(a, b);
    NormaliseRun(a);
  }

  /** The step of the proof below for text that starts with a word character. */
  lemma NormaliseAppendWord(a: string, b: string)
    requires a != [] && !IsTargetSeparator(a[0])
    requires NormaliseTargets(a[1..] + b) == NormaliseTargets(a[1..]) + NormaliseTargets(b)
    ensures NormaliseTargets(a + b) == NormaliseTargets(a) + NormaliseTargets(b)
  {
    var c, u := a[0], a[1..];
    ConsAppend(a, b);
    NormaliseCons(c, u + b);
    NormaliseCons(c, u);
    SeqAssoc([c], NormaliseTargets(u), NormaliseTargets(b));
  }

  /** The step of the proof below for text that starts with a run and goes on after it. */
  lemma NormaliseAppendRun(a: string, b: string)
    requires a != [] && IsTargetSeparator(a[0]) && !AllTargetSeparators(a)
    requires NormaliseTargets(SkipSeparators(a) + b) == NormaliseTargets(SkipSeparators(a)) + NormaliseTargets(b)
    ensures NormaliseTargets(a + b) == NormaliseTargets(a) + NormaliseTargets(b)
  {
    var rest := SkipSeparators(a);
    assert (a + b)[0] == a[0];
    NormaliseRunFirst(a + b);
    NormaliseRunFirst(a);
    SkipSeparatorsAppend(a, b);
    calc {
      NormaliseTargets(a + b);
      " " + NormaliseTargets(rest + b);
      " " + (NormaliseTargets(rest) + NormaliseTargets(b));
      { SeqAssoc(" ", NormaliseTargets(rest), NormaliseTargets(b)); }
      (" " + NormaliseTargets(rest)) + NormaliseTargets(b);
    }
  }

  /** What is left after a leading run ends where the text ends. */
  lemma SkipKeepsLast(a: string)
    requires a != [] && !AllTargetSeparators(a)
    ensures var rest := SkipSeparators(a);
            rest != [] && |rest| < |a| + 1 && rest[|rest| - 1] == a[|a| - 1]
  {
    var n := |a| - |SkipSeparators(a)|;
    SkippedAreSeparators(a);
    forall k | 0 <= k < n
      ensures IsTargetSeparator(a[k])
    {
      assert a[..n][k] == a[k];
    }
  }

  /**
   * Normalisation works piece by piece: two texts that do not join a run of
   * separators across their boundary are normalised independently.
   */
  lemma {:induction false} NormaliseAppend(a: string, b: string)
    requires a == [] || b == [] || !IsTargetSeparator(a[|a| - 1]) || !IsTargetSeparator(b[0])
    ensures NormaliseTargets(a + b) == NormaliseTargets(a) + NormaliseTargets(b)
    decreases |a|
  {
    if a == [] {
      assert a + b == b;
    } else if !IsTargetSeparator(a[0]) {
      NormaliseAppend(a[1..], b);
      NormaliseAppendWord(a, b);
    } else if AllTargetSeparators(a) {
      NormaliseAfterRun(a, b);
    } else {
      SkipKeepsLast(a);
      NormaliseAppend(SkipSeparators(a), b);
      NormaliseAppendRun(a, b);
    }
  }

  /** Normalising twice changes nothing more. */
  lemma NormaliseIdempotent(s: string)
    ensures NormaliseTargets(NormaliseTargets(s)) == NormaliseTargets(s)
  {
    NormaliseRemovesSeparators(s);
    NormaliseKeepsPlainText(NormaliseTargets(s));
  }

  // ---------------------------------------------------------------------
  // Windows: `replaceAll("(?<= )(-D[^\" ]+)= ", "$1=\"\" ")` on the last argument

  /** What the rewrite puts after an empty flag's `=`. */
  const EmptyValue := "\"\""

  /** The offset of the first space or double quote, or the length when there is none. */
  function RunEnd(s: string): (j: nat)
    ensures j <= |s|
    ensures forall k :: 0 <= k < j ==> s[k] != ' ' && s[k] != '"'
    ensures j < |s| ==> s[j] == ' ' || s[j] == '"'
    decreases |s|
  {
    if s == [] || s[0] == ' ' || s[0] == '"' then 0 else 1 + RunEnd(s[1..])
  }

  /**
   * Whether the pattern matches at the start of `s` (the look-behind for the
   * preceding space is the caller's): `-D`, then a run free of quotes and
   * spaces that ends in `=`, then a space. The greedy `[^" ]+` makes the run
   * end at the first space or quote.
   */
  predicate EmptyFlagAt(s: string)
  {
    |s| >= 2 && s[0] == '-' && s[1] == 'D' &&
    var j := RunEnd(s); 4 <= j < |s| && s[j] == ' ' && s[j - 1] == '='
  }

  /** The regex replacement, scanning left to right; `afterSpace` is the look-behind. */
  function FixEmpty(s: string, afterSpace: bool): string
    decreases |s|
  {
    if s == [] then []
    else if afterSpace && EmptyFlagAt(s) then
      var j := RunEnd(s);
      s[..j] + EmptyValue + " " + FixEmpty(s[j + 1..], true)
    else [s[0]] + FixEmpty(s[1..], s[0] == ' ')
  }

  function FixEmptyValues(s: string): string
  {
    FixEmpty(s, false)
  }

  /** Without an `=` the pattern never matches, so the text is left as it is. */
  lemma {:induction false} FixKeepsTextWithoutEquals(s: string, afterSpace: bool)
    requires '=' !in s
    ensures FixEmpty(s, afterSpace) == s
    decreases |s|
  {
    if s != [] {
      assert !EmptyFlagAt(s) by {
        var j := RunEnd(s);
        if 1 <= j <= |s| { assert s[j - 1] in s; }
      }
      assert forall c :: c in s[1..] ==> c in s;
      FixKeepsTextWithoutEquals(s[1..], s[0] == ' ');
    }
  }

  /** A space-free word whose value is empty: `-D<key>=`, key non-empty, no quote anywhere. */
  predicate IsEmptyFlag(w: string)
  {
    |w| >= 4 && w[0] == '-' && w[1] == 'D' && w[|w| - 1] == '=' && '"' !in w
  }

  /** One step of the scan where the pattern matches. */
  lemma FixMatchStep(s: string)
    requires EmptyFlagAt(s)
    ensures FixEmpty(s, true) == s[..RunEnd(s)] + EmptyValue + " " + FixEmpty(s[RunEnd(s) + 1..], true)
  {
  }

  /** The same step, with the pieces named by the caller. */
  lemma FixMatchAt(s: string, j: nat, before: string, after: string)
    requires EmptyFlagAt(s) && j == RunEnd(s)
    requires before == s[..j] && after == s[j + 1..]
    ensures FixEmpty(s, true) == before + EmptyValue + " " + FixEmpty(after, true)
  {
    FixMatchStep(s);
  }

  /** One step of the scan where it does not. */
  lemma FixCopyStep(s: string, afterSpace: bool)
    requires s != [] && !(afterSpace && EmptyFlagAt(s))
    ensures FixEmpty(s, afterSpace) == [s[0]] + FixEmpty(s[1..], s[0] == ' ')
  {
  }

  /** Inside a word nothing is rewritten. */
  lemma {:induction false} FixCopiesWord(u: string, t: string)
    requires ' ' !in u
    ensures FixEmpty(u + t, false) == u + FixEmpty(t, false)
    decreases |u|
  {
    if u == [] {
      assert u + t == t;
    } else {
      assert u[0] in u;
      assert forall c :: c in u[1..] ==> c in u;
      FixCopiesWord(u[1..], t);
      ConsAppend(u, t);
      FixCopyStep(u + t, false);
      SeqAssoc([u[0]], u[1..], FixEmpty(t, false));
    }
  }

  /** At a word followed by a space, the pattern matches exactly for an empty-valued flag. */
  lemma FlagAtWord(w: string, rest: string)
    requires w != [] && ' ' !in w
    ensures EmptyFlagAt(w + " " + rest) <==> IsEmptyFlag(w)
    ensures IsEmptyFlag(w) ==> RunEnd(w + " " + rest) == |w|
  {
    var s := w + " " + rest;
    assert s[|w|] == ' ';
    var j := RunEnd(s);
    assert j <= |w|;
    assert forall k :: 0 <= k < |w| ==> s[k] == w[k];
    if '"' in w {
      var q :| 0 <= q < |w| && w[q] == '"';
      assert j <= q;
    } else {
      assert j == |w|;
    }
  }

  /**
   * One word followed by a space: it gains `""` exactly when it follows a
   * space and is an empty-valued `-D` flag; the rest is rewritten on its own.
   */
  lemma FixWord(w: string, rest: string, afterSpace: bool)
    requires w != [] && ' ' !in w
    ensures FixEmpty(w + " " + rest, afterSpace)
         == (if afterSpace && IsEmptyFlag(w) then w + EmptyValue else w) + " " + FixEmpty(rest, true)
  {
    var s := w + " " + rest;
    FlagAtWord(w, rest);
    var tail := FixEmpty(rest, true);
    if afterSpace && IsEmptyFlag(w) {
      FixMatchStep(s);
      DropAppend(w + " ", rest, |w|);
      DropAppend(w + " ", rest, |w| + 1);
      assert (w + " ")[..|w|] == w;
    } else {
      FixCopyStep(s, afterSpace);
      assert forall c :: c in w[1..] ==> c in w;
      SeqAssoc(w, " ", rest);
      ConsAppend(w, " " + rest);
      FixCopiesWord(w[1..], " " + rest);
      assert FixEmpty(" " + rest, false) == " " + tail by {
        FixCopyStep(" " + rest, false);
        assert (" " + rest)[1..] == rest;
      }
      SeqAssoc([w[0]], w[1..], " " + tail);
      SeqAssoc(w, " ", tail);
    }
  }

  /** The word at the very end has no space after it and is never rewritten. */
  lemma FixLastWord(w: string, afterSpace: bool)
    requires ' ' !in w
    ensures FixEmpty(w, afterSpace) == w
  {
    if w != [] {
      assert !EmptyFlagAt(w) by {
        var j := RunEnd(w);
        if j < |w| { assert w[j] in w; }
      }
      FixCopyStep(w, afterSpace);
      assert forall c :: c in w[1..] ==> c in w;
      FixCopiesWord(w[1..], []);
      assert w[1..] + [] == w[1..];
    }
  }

  lemma RunEndPrefix(a: string, b: string)
    requires RunEnd(a) < |a|
    ensures RunEnd(a + b) == RunEnd(a)
  {
    var j1, j2 := RunEnd(a), RunEnd(a + b);
    assert (a + b)[j1] == a[j1];
  }

  /** Whether the pattern matches at the start of text ending in a space does not depend on what follows. */
  lemma FlagAtPrefix(a: string, b: string)
    requires a != [] && a[|a| - 1] == ' '
    ensures RunEnd(a) < |a| && RunEnd(a + b) == RunEnd(a)
    ensures EmptyFlagAt(a + b) <==> EmptyFlagAt(a)
  {
    assert RunEnd(a) < |a|;
    RunEndPrefix(a, b);
    var s, j := a + b, RunEnd(a);
    assert s[j] == a[j];
    if j >= 1 { assert s[j - 1] == a[j - 1]; }
    if |a| >= 2 { assert s[0] == a[0] && s[1] == a[1]; }
  }

  /** A match at the start of text ending in a space, followed by more text. */
  lemma FixMatchAppend(a: string, b: string)
    requires a != [] && a[|a| - 1] == ' ' && EmptyFlagAt(a)
    ensures RunEnd(a) < |a|
    ensures FixEmpty(a + b, true) == a[..RunEnd(a)] + EmptyValue + " " + FixEmpty(a[RunEnd(a) + 1..] + b, true)
  {
    FlagAtPrefix(a, b);
    var j := RunEnd(a);
    DropAppend(a, b, j);
    DropAppend(a, b, j + 1);
    FixMatchAt(a + b, j, a[..j], a[j + 1..] + b);
  }

  /** The step of the proof below where the pattern matches at the start. */
  lemma FixSplitMatch(a: string, b: string)
    requires a != [] && a[|a| - 1] == ' ' && EmptyFlagAt(a)
    requires RunEnd(a) < |a|
    requires var rest := a[RunEnd(a) + 1..];
             FixEmpty(rest + b, true) == FixEmpty(rest, true) + FixEmpty(b, true)
    ensures FixEmpty(a + b, true) == FixEmpty(a, true) + FixEmpty(b, true)
  {
    var j := RunEnd(a);
    var head := a[..j] + EmptyValue + " ";
    var x, y := FixEmpty(a[j + 1..], true), FixEmpty(b, true);
    assert FixEmpty(a + b, true) == head + (x + y) by {
      FixMatchAppend(a, b);
    }
    assert FixEmpty(a, true) == head + x by {
      FixMatchAt(a, j, a[..j], a[j + 1..]);
    }
    SeqAssoc(head, x, y);
  }

  /** The step of the proof below where the first character is copied. */
  lemma FixSplitCopy(a: string, b: string, afterSpace: bool)
    requires a != [] && a[|a| - 1] == ' ' && !(afterSpace && EmptyFlagAt(a))
    requires FixEmpty(a[1..] + b, a[0] == ' ') == FixEmpty(a[1..], a[0] == ' ') + FixEmpty(b, true)
    ensures FixEmpty(a + b, afterSpace) == FixEmpty(a, afterSpace) + FixEmpty(b, true)
  {
    FlagAtPrefix(a, b);
    FixCopyStep(a + b, afterSpace);
    FixCopyStep(a, afterSpace);
    ConsAppend(a, b);
    SeqAssoc([a[0]], FixEmpty(a[1..], a[0] == ' '), FixEmpty(b, true));
  }

  /** Nothing in front: the split holds trivially. */
  lemma FixSplitNil(b: string)
    ensures FixEmpty([] + b, true) == FixEmpty([], true) + FixEmpty(b, true)
  {
    assert [] + b == b;
  }

  /** No rewrite crosses a space: text split after a space is rewritten piece by piece. */
  lemma {:induction false} FixSplit(a: string, b: string, afterSpace: bool)
    requires a != [] && a[|a| - 1] == ' '
    ensures FixEmpty(a + b, afterSpace) == FixEmpty(a, afterSpace) + FixEmpty(b, true)
    decreases |a|
  {
    if afterSpace && EmptyFlagAt(a) {
      FlagAtPrefix(a, []);
      var j := RunEnd(a);
      if j + 1 < |a| {
        FixSplit(a[j + 1..], b, true);
      } else {
        FixSplitNil(b);
      }
      FixSplitMatch(a, b);
    } else {
      if |a| > 1 {
        FixSplit(a[1..], b, a[0] == ' ');
      } else {
        FixSplitNil(b);
      }
      FixSplitCopy(a, b, afterSpace);
    }
  }

  /** Words separated by single spaces. */
  function JoinWords(words: seq<string>): string
    requires |words| > 0
    decreases |words|
  {
    if |words| == 1 then words[0] else words[0] + " " + JoinWords(words[1..])
  }

  /** A word with `""` appended when it is an empty-valued flag that follows a space. */
  function QuoteWord(w: string, afterSpace: bool): string
  {
    if afterSpace && IsEmptyFlag(w) then w + EmptyValue else w
  }

  /** Every word but the last, quoted where it is an empty-valued flag after a space. */
  function QuoteWords(words: seq<string>, afterSpace: bool): (r: seq<string>)
    requires |words| > 0
    ensures |r| == |words| && r[|r| - 1] == words[|words| - 1]
    decreases |words|
  {
    if |words| == 1 then words else [QuoteWord(words[0], afterSpace)] + QuoteWords(words[1..], true)
  }

  predicate IsWord(w: string)
  {
    w != [] && ' ' !in w
  }

  /**
   * What the Windows fix-up does to a command line of words: every
   * empty-valued `-D` flag after the first word gets `""`, except the last
   * word, which has no space after it. Nothing else changes.
   */
  lemma {:induction false} FixWords(words: seq<string>, afterSpace: bool)
    requires |words| > 0 && forall i :: 0 <= i < |words| ==> IsWord(words[i])
    ensures FixEmpty(JoinWords(words), afterSpace) == JoinWords(QuoteWords(words, afterSpace))
    decreases |words|
  {
    if |words| == 1 {
      FixLastWord(words[0], afterSpace);
    } else {
      var w, rest := words[0], words[1..];
      assert IsWord(w);
      FixWord(w, JoinWords(rest), afterSpace);
      FixWords(rest, true);
    }
  }

  /** The first word, the executable, is never rewritten. */
  lemma FixKeepsFirstWord(words: seq<string>)
    requires |words| > 0 && forall i :: 0 <= i < |words| ==> IsWord(words[i])
    ensures QuoteWords(words, false)[0] == words[0]
  {
  }

  /** `newArgs.set(size - 1, …)`: only the last argument is rewritten. */
  function FixLastArg(args: seq<string>): (r: seq<string>)
    requires |args| > 0
    ensures |r| == |args| && r[..|args| - 1] == args[..|args| - 1]
    ensures r[|args| - 1] == FixEmptyValues(args[|args| - 1])
  {
    args[|args| - 1 := FixEmptyValues(args[|args| - 1])]
  }

  // ---------------------------------------------------------------------
  // Environment and working directory

  /** The build environment with `EASYANT_HOME` and `EASYANT_OPTS` put in, in that order. */
  function LaunchEnv(env: Env, resolved: Option<EasyAntInstallation>, easyAntOpts: Option<string>, expand: Expander): (r: Env)
    ensures forall k :: k != HomeVariable && k != OptsVariable ==> (k in r <==> k in env) && (k in env ==> r[k] == env[k])
    ensures resolved.Some? ==> HomeVariable in r && r[HomeVariable] == resolved.value.home
    ensures resolved.None? ==> (HomeVariable in r <==> HomeVariable in env)
                               && (HomeVariable in env ==> r[HomeVariable] == env[HomeVariable])
    ensures easyAntOpts.Some? ==>
              OptsVariable in r
              && r[OptsVariable] == expand(if resolved.Some? then env[HomeVariable := resolved.value.home] else env,
                                           easyAntOpts.value)
    ensures easyAntOpts.None? ==> (OptsVariable in r <==> OptsVariable in env)
                                  && (OptsVariable in env ==> r[OptsVariable] == env[OptsVariable])
  {
    var withHome := if resolved.Some? then env[HomeVariable := resolved.value.home] else env;
    if easyAntOpts.Some? then withHome[OptsVariable := expand(withHome, easyAntOpts.value)] else withHome
  }

  /**
   * The directory the process starts in: for a non-blank build file,
   * `new FilePath(moduleRoot, new File(file).getParent())`, which throws
   * (None here) when the file has no directory part; otherwise the module root.
   */
  function WorkingDirectory(buildFile: Option<string>, env: Env, moduleRoot: FilePath, host: Host): (r: Option<FilePath>)
    ensures r == Some(moduleRoot) <==> buildFile.None? || IsBlank(buildFile.value)
    ensures r.None? <==> buildFile.Some? && !IsBlank(buildFile.value)
                         && host.parentOf(host.expand(env, buildFile.value)).None?
    ensures r.Some? && r != Some(moduleRoot) ==>
              r.value == Child(moduleRoot, host.parentOf(host.expand(env, buildFile.value)).value)
  {
    if buildFile.None? || IsBlank(buildFile.value) then Some(moduleRoot)
    else match host.parentOf(host.expand(env, buildFile.value))
      case None => None
      case Some(dir) =>
        ChildIsNotBase(moduleRoot, dir);
        Some(Child(moduleRoot, dir))
  }

  /**
   * The directory evidently meant: a build file's directory under the module
   * root, and the module root itself when the file has no directory part.
   */
  function IntendedWorkingDirectory(buildFile: Option<string>, env: Env, moduleRoot: FilePath, host: Host): (r: FilePath)
    ensures r == moduleRoot || (r.Child? && r.base == moduleRoot)
    ensures buildFile.Some? && host.parentOf(host.expand(env, buildFile.value)).None? ==> r == moduleRoot
  {
    if buildFile.None? || IsBlank(buildFile.value) then moduleRoot
    else match host.parentOf(host.expand(env, buildFile.value))
      case None => moduleRoot
      case Some(dir) => Child(moduleRoot, dir)
  }

  /**
   * The code as written agrees with the intended directory wherever it
   * returns, and throws exactly for a non-blank build file without a
   * directory part, where the module root was meant.
   */
  lemma WorkingDirectoryAsWritten(buildFile: Option<string>, env: Env, moduleRoot: FilePath, host: Host)
    ensures var written := WorkingDirectory(buildFile, env, moduleRoot, host);
            var intended := IntendedWorkingDirectory(buildFile, env, moduleRoot, host);
            && (written.Some? ==> written.value == intended)
            && (written.None? <==> buildFile.Some? && !IsBlank(buildFile.value) && intended == moduleRoot)
  {
    if buildFile.Some? && !IsBlank(buildFile.value) {
      var parent := host.parentOf(host.expand(env, buildFile.value));
      if parent.Some? {
        ChildIsNotBase(moduleRoot, parent.value);
      }
    }
  }

  // ---------------------------------------------------------------------
  // The step

  /**
   * Where preparing the launch ends: a logged failure, the
   * NullPointerException thrown while making the working directory, or the
   * process to start.
   */
  datatype Prepared = Abort(entry: LogEntry) | ThrowsNullPointer | Ready(invocation: Invocation)

  /** How `perform` ends: it returns the step's verdict, or the exception leaves it. */
  datatype Completion = Returned(ok: bool) | ThrewNullPointer

  /** A configured build module or build file, located (`buildFilePath`) after expansion. */
  function Locate(build: Build, host: Host, configured: Option<string>): (r: Option<Resolution>)
    ensures r.Some? <==> configured.Some?
    ensures configured.Some? ==> r == Some(BuildFilePath(build, host.pathExists, host.expand(build.env, configured.value)))
  {
    match ExpandOpt(host.expand, build.env, configured)
    case None => None
    case Some(name) => Some(BuildFilePath(build, host.pathExists, name))
  }

  predicate IsMissing(at: Option<Resolution>)
  {
    at.Some? && at.value.Missing?
  }

  /** The arguments in the order `perform` adds them. */
  function Arguments(exe: string, moduleAt: Option<Resolution>, fileAt: Option<Resolution>,
                     step: EasyAnt, build: Build, host: Host): (r: seq<string>)
    ensures |r| > 0 && r[0] == exe
    ensures var tokens := host.tokenize(NormaliseTargets(host.expand(build.env, step.targets)));
            |tokens| < |r| && r[|r| - |tokens|..] == tokens
    ensures |r| == 1 + |FlagArgs("-buildModule", moduleAt, host.nameOf)| + |FlagArgs("-buildFile", fileAt, host.nameOf)|
                   + |build.buildVariableArgs| + |host.propertyArgs(step.properties, build.env)|
                   + |host.tokenize(NormaliseTargets(host.expand(build.env, step.targets)))|
  {
    [exe] + FlagArgs("-buildModule", moduleAt, host.nameOf) + FlagArgs("-buildFile", fileAt, host.nameOf)
    + build.buildVariableArgs + host.propertyArgs(step.properties, build.env)
    + host.tokenize(NormaliseTargets(host.expand(build.env, step.targets)))
  }

  /** What `perform` does before launching, as one value. */
  function Prepare(step: EasyAnt, installations: seq<EasyAntInstallation>, build: Build,
                   launcher: Launcher, node: Node, host: Host): (r: Prepared)
    ensures r.Abort? ==> r.entry == LogEntry.Error(NoExecutableMessage)
                         || (r.entry.FatalError? && StartsWith(r.entry.message, NotFoundMessage))
    ensures r.Ready? ==> |r.invocation.cmds| > 0
  {
    var resolved := ResolvedInstallation(step.easyAntName, installations, build.env, node, host.expand);
    var exe := ExecutableArg(resolved, launcher.isUnix, node, host.expand);
    var moduleAt := Locate(build, host, step.buildModule);
    var fileAt := Locate(build, host, step.buildFile);
    if exe.None? then Abort(LogEntry.Error(NoExecutableMessage))
    else if IsMissing(moduleAt) then Abort(FatalError(NotFoundMessage + host.render(moduleAt.value.tried)))
    else if IsMissing(fileAt) then Abort(FatalError(NotFoundMessage + host.render(fileAt.value.tried)))
    else
      var args := Arguments(exe.value, moduleAt, fileAt, step, build, host);
      var env := LaunchEnv(build.env, resolved, step.easyAntOpts, host.expand);
      var cmds := if launcher.isUnix then args else FixLastArg(host.toWindowsCommand(args));
      var file := ExpandOpt(host.expand, build.env, step.buildFile);
      match WorkingDirectory(file, env, build.moduleRoot, host)
      case None => ThrowsNullPointer
      case Some(pwd) => Ready(Invocation(cmds, env, pwd))
  }

  /**
   * The opening of `perform`: the configured installation seen from the node
   * and the build environment, and the executable to run. Without a
   * configured installation the bare command is used; with one whose script
   * is missing on the node there is no executable.
   */
  method ResolveExecutable(easyAntName: Option<string>, installations: seq<EasyAntInstallation>,
                           isUnix: bool, env: Env, node: Node, expand: Expander)
    returns (ai: Option<EasyAntInstallation>, exe: Option<string>)
    ensures ai == ResolvedInstallation(easyAntName, installations, env, node, expand)
    ensures exe == ExecutableArg(ai, isUnix, node, expand)
  {
    ai := GetEasyAnt(installations, easyAntName);
    if ai.None? {
      exe := Some(if isUnix then UnixCommand else WindowsCommand);
    } else {
      ai := Some(ForEnvironment(ForNode(ai.value, node), env, expand));
      exe := GetExecutable(ai.value, node, expand);
    }
  }

  /**
   * The middle of `perform`: `-buildModule` and `-buildFile` with the located
   * module and file, then the build variables, the properties and the
   * normalised targets' tokens. A module or file found nowhere stops it with
   * a fatal entry naming the path tried under the module root.
   */
  method AddArguments(exe: string, step: EasyAnt, build: Build, host: Host)
    returns (failure: Option<LogEntry>, args: seq<string>)
    ensures var moduleAt, fileAt := Locate(build, host, step.buildModule), Locate(build, host, step.buildFile);
            && (IsMissing(moduleAt) ==> failure == Some(FatalError(NotFoundMessage + host.render(moduleAt.value.tried))))
            && (!IsMissing(moduleAt) && IsMissing(fileAt) ==>
                  failure == Some(FatalError(NotFoundMessage + host.render(fileAt.value.tried))))
            && (!IsMissing(moduleAt) && !IsMissing(fileAt) ==>
                  failure.None? && args == Arguments(exe, moduleAt, fileAt, step, build, host))
  {
    var env := build.env;
    args := [exe];
    var buildModule := ExpandOpt(host.expand, env, step.buildModule);
    var buildFile := ExpandOpt(host.expand, env, step.buildFile);
    var targets := host.expand(env, step.targets);
    ghost var moduleAt := Locate(build, host, step.buildModule);
    ghost var fileAt := Locate(build, host, step.buildFile);

    if buildModule.Some? {
      var modulePath := BuildFilePath(build, host.pathExists, buildModule.value);
      if modulePath.Missing? {
        return Some(FatalError(NotFoundMessage + host.render(modulePath.tried))), args;
      }
      args := args + ["-buildModule", host.nameOf(modulePath.path)];
    } else {
      assert args + [] == args;
    }
    assert args == [exe] + FlagArgs("-buildModule", moduleAt, host.nameOf);
    if buildFile.Some? {
      var filePath := BuildFilePath(build, host.pathExists, buildFile.value);
      if filePath.Missing? {
        return Some(FatalError(NotFoundMessage + host.render(filePath.tried))), args;
      }
      args := args + ["-buildFile", host.nameOf(filePath.path)];
    } else {
      assert args + [] == args;
    }
    assert args == [exe] + FlagArgs("-buildModule", moduleAt, host.nameOf) + FlagArgs("-buildFile", fileAt, host.nameOf);

    args := args + build.buildVariableArgs;
    args := args + host.propertyArgs(step.properties, env);
    args := args + host.tokenize(NormaliseTargets(targets));
    failure := None;
  }

  /**
   * The end of `perform`: the module root, or for a non-blank build file its
   * parent directory under the module root; None where `new FilePath` throws.
   */
  method LaunchDirectory(buildFile: Option<string>, env: Env, moduleRoot: FilePath, host: Host)
    returns (pwd: Option<FilePath>)
    ensures pwd == WorkingDirectory(buildFile, env, moduleRoot, host)
  {
    if buildFile.Some? && !IsBlank(buildFile.value) {
      var parent := host.parentOf(host.expand(env, buildFile.value));
      if parent.None? {
        return None;
      }
      pwd := Some(Child(moduleRoot, parent.value));
    } else {
      pwd := Some(moduleRoot);
    }
  }

  /**
   * `perform`: the step succeeds iff the launched process exits with 0. A
   * missing executable, build module or build file ends it with one log entry
   * and no process; a build file without a directory part makes it throw
   * before launching; an I/O failure of the launch ends it with a fatal entry.
   */
  method Perform(step: EasyAnt, installations: seq<EasyAntInstallation>, build: Build,
                 launcher: Launcher, node: Node, host: Host)
    returns (result: Completion, launched: Option<Invocation>, log: seq<LogEntry>)
    ensures var p := Prepare(step, installations, build, launcher, node, host);
            && (p.Abort? ==> result == Returned(false) && launched.None? && log == [p.entry])
            && (p.ThrowsNullPointer? ==> result == ThrewNullPointer && launched.None? && log == [])
            && (p.Ready? ==> launched == Some(p.invocation))
    ensures launched.Some? ==> result == Returned(launcher.launch(launched.value) == Exited(0))
    ensures launched.Some? ==>
              log == if launcher.launch(launched.value).LaunchFailed? then [FatalError(CommandFailedMessage)] else []
  {
    var env := build.env;
    var ai, exe := ResolveExecutable(step.easyAntName, installations, launcher.isUnix, env, node, host.expand);
    if exe.None? {
      return Returned(false), None, [LogEntry.Error(NoExecutableMessage)];
    }
    var failure, args := AddArguments(exe.value, step, build, host);
    if failure.Some? {
      return Returned(false), None, [failure.value];
    }
    var buildFile := ExpandOpt(host.expand, env, step.buildFile);

    if ai.Some? {
      env := env[HomeVariable := ai.value.home];
    }
    if step.easyAntOpts.Some? {
      env := env[OptsVariable := host.expand(env, step.easyAntOpts.value)];
    }
    assert env == LaunchEnv(build.env, ai, step.easyAntOpts, host.expand);

    if !launcher.isUnix {
      var newArgs := host.toWindowsCommand(args);
      newArgs := newArgs[|newArgs| - 1 := FixEmptyValues(newArgs[|newArgs| - 1])];
      args := newArgs;
    }

    var pwd := LaunchDirectory(buildFile, env, build.moduleRoot, host);
    if pwd.None? {
      return ThrewNullPointer, None, [];
    }
    var invocation := Invocation(args, env, pwd.value);
    launched := Some(invocation);
    match launcher.launch(invocation)
    case Exited(code) =>
      result, log := Returned(code == 0), [];
    case LaunchFailed =>
      result, log := Returned(false), [FatalError(CommandFailedMessage)];
  }

  // ---------------------------------------------------------------------
  // What the step promises

  /**
   * The step stops with a log entry exactly when the installation's script is
   * missing on the node, or the build module or the build file is found
   * neither under the module root nor under the workspace. Otherwise it
   * throws exactly when the build file is non-blank and has no directory
   * part, and launches in every other case.
   */
  lemma PrepareAbortsIff(step: EasyAnt, installations: seq<EasyAntInstallation>, build: Build,
                         launcher: Launcher, node: Node, host: Host)
    ensures var resolved := ResolvedInstallation(step.easyAntName, installations, build.env, node, host.expand);
            var moduleName := ExpandOpt(host.expand, build.env, step.buildModule);
            var file := ExpandOpt(host.expand, build.env, step.buildFile);
            var env := LaunchEnv(build.env, resolved, step.easyAntOpts, host.expand);
            var missing := (p: string) =>
              !host.pathExists(Child(build.moduleRoot, p)) && !host.pathExists(Child(build.workspace, p));
            var aborts := (resolved.Some? && GetExecutable(resolved.value, node, host.expand).None?)
                          || (moduleName.Some? && missing(moduleName.value))
                          || (file.Some? && missing(file.value));
            var p := Prepare(step, installations, build, launcher, node, host);
            && (p.Abort? <==> aborts)
            && (p.ThrowsNullPointer? <==> !aborts && file.Some? && !IsBlank(file.value)
                                          && host.parentOf(host.expand(env, file.value)).None?)
  {
  }

  /**
   * A build file named without a directory, `build.xml`, found under the
   * module root: the step throws instead of running in the module root.
   */
  lemma ParentlessBuildFileThrows(build: Build, launcher: Launcher, node: Node, host: Host)
    requires host.expand(build.env, "build.xml") == "build.xml"
    requires host.pathExists(Child(build.moduleRoot, "build.xml"))
    requires host.parentOf("build.xml").None?
    ensures var step := EasyAnt(None, "", None, Some("build.xml"), None, None);
            && Prepare(step, [], build, launcher, node, host) == ThrowsNullPointer
            && IntendedWorkingDirectory(Some("build.xml"), build.env, build.moduleRoot, host) == build.moduleRoot
  {
    var step := EasyAnt(None, "", None, Some("build.xml"), None, None);
    assert !IsBlank("build.xml") by {
      assert "build.xml"[0] == 'b';
    }
    assert LaunchEnv(build.env, None, None, host.expand) == build.env;
  }

  /**
   * On Unix the command line is, in order: the executable, `-buildModule`
   * and `-buildFile` with the found file's name, the build variables, the
   * properties, and the normalised targets' tokens.
   */
  lemma PrepareArgumentOrder(step: EasyAnt, installations: seq<EasyAntInstallation>, build: Build,
                             launcher: Launcher, node: Node, host: Host)
    requires launcher.isUnix
    requires Prepare(step, installations, build, launcher, node, host).Ready?
    ensures var resolved := ResolvedInstallation(step.easyAntName, installations, build.env, node, host.expand);
            var moduleName := ExpandOpt(host.expand, build.env, step.buildModule);
            var file := ExpandOpt(host.expand, build.env, step.buildFile);
            var cmds := Prepare(step, installations, build, launcher, node, host).invocation.cmds;
            && ExecutableArg(resolved, true, node, host.expand).Some?
            && cmds == [ExecutableArg(resolved, true, node, host.expand).value]
                       + (if moduleName.Some? then ["-buildModule", host.nameOf(BuildFilePath(build, host.pathExists, moduleName.value).path)] else [])
                       + (if file.Some? then ["-buildFile", host.nameOf(BuildFilePath(build, host.pathExists, file.value).path)] else [])
                       + build.buildVariableArgs
                       + host.propertyArgs(step.properties, build.env)
                       + host.tokenize(NormaliseTargets(host.expand(build.env, step.targets)))
  {
  }

  /** Without a configured installation the bare command is run: `easyant`, or `easyant.bat` off Unix. */
  lemma PrepareBareCommand(step: EasyAnt, installations: seq<EasyAntInstallation>, build: Build,
                           launcher: Launcher, node: Node, host: Host)
    requires Lookup(installations, step.easyAntName).None?
    requires launcher.isUnix
    requires Prepare(step, installations, build, launcher, node, host).Ready?
    ensures Prepare(step, installations, build, launcher, node, host).invocation.cmds[0] == "easyant"
    ensures HomeVariable !in build.env ==> HomeVariable !in Prepare(step, installations, build, launcher, node, host).invocation.env
  {
  }

  /**
   * Off Unix, the arguments built as on Unix are turned into the host's
   * Windows command line, and only its last argument is changed, by the
   * empty-value rewrite.
   */
  lemma PrepareWindowsCommand(step: EasyAnt, installations: seq<EasyAntInstallation>, build: Build,
                              launcher: Launcher, node: Node, host: Host)
    requires !launcher.isUnix
    requires Prepare(step, installations, build, launcher, node, host).Ready?
    ensures var resolved := ResolvedInstallation(step.easyAntName, installations, build.env, node, host.expand);
            var exe := ExecutableArg(resolved, false, node, host.expand);
            && exe.Some?
            && Prepare(step, installations, build, launcher, node, host).invocation.cmds
               == FixLastArg(host.toWindowsCommand(
                    Arguments(exe.value, Locate(build, host, step.buildModule), Locate(build, host, step.buildFile),
                              step, build, host)))
  {
  }

  /**
   * `EASYANT_HOME` is the resolved installation's home; and the process runs
   * under the module root (in the build file's directory when one is given),
   * even when the build file was found under the workspace.
   */
  lemma PrepareEnvironmentAndDirectory(step: EasyAnt, installations: seq<EasyAntInstallation>, build: Build,
                                       launcher: Launcher, node: Node, host: Host)
    requires Prepare(step, installations, build, launcher, node, host).Ready?
    ensures var resolved := ResolvedInstallation(step.easyAntName, installations, build.env, node, host.expand);
            var inv := Prepare(step, installations, build, launcher, node, host).invocation;
            && (resolved.Some? ==> HomeVariable in inv.env && inv.env[HomeVariable] == resolved.value.home)
            && (inv.pwd == build.moduleRoot || (inv.pwd.Child? && inv.pwd.base == build.moduleRoot))
            && (inv.pwd == build.moduleRoot
                <==> step.buildFile.None? || IsBlank(host.expand(build.env, step.buildFile.value)))
            && (inv.pwd != build.moduleRoot ==>
                  inv.pwd == Child(build.moduleRoot, host.parentOf(host.expand(inv.env, host.expand(build.env, step.buildFile.value))).value))
            && inv.pwd == IntendedWorkingDirectory(ExpandOpt(host.expand, build.env, step.buildFile), inv.env, build.moduleRoot, host)
  {
  }
}
