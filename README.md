# EasyAnt build-step plugin, modelled in Dafny

This project models the core of the Jenkins EasyAnt plugin, which runs EasyAnt (an Ant-based build tool) as a build step. It also defines a console annotator and two console notes for EasyAnt's output. `perform` does not install that annotator: it hands the build listener to the launcher as the process's output unchanged. It covers four parts:

- **The console annotator.** `EasyAntConsoleAnnotator` (`console_annotator.dfy`) is a stream filter that remembers one bit: whether the previous line was empty.
  - Before forwarding a line, it may write a *target note*: after an empty line, for a line that ends in `:` and holds no space.
  - It may also write an *outcome note*: for a line that starts with `BUILD SUCCESSFUL` or `BUILD FAILED`.
  - It then forwards the line's bytes unchanged.
  - The class keeps the wrapped stream as a sequence of events. Its invariant ties that sequence to a specification function `Annotate` over all lines seen so far.
- **The two console notes.** `EasyAntOutcomeNote` and `EasyAntTargetNote` (`console_notes.dfy`) decide which markup spans the log renderer adds to a noted line, and `EasyAntTargetNote.ENABLED` gates the target note.
- **The installation.** `EasyAntInstallation` (`installation.dfy`) covers:
  - home laundering, and the constructors;
  - the executable's location and its existence-gated lookup;
  - the node and environment views, which are derived as new values;
  - the `doCheckHome` form validator.
- **The build step.** `EasyAnt.perform` (`easyant_step.dfy`) does, in order:
  1. finds the configured installation (`getEasyAnt`);
  2. resolves the executable, or falls back to the bare command;
  3. locates the build module and the build file (`buildFilePath`: module root first, then the workspace);
  4. assembles the command line in a fixed order, with the targets' tab/CR/LF runs turned into single spaces;
  5. off Unix, rewrites the empty `-Dkey=` values in the last argument of the Windows command line;
  6. sets `EASYANT_HOME` and `EASYANT_OPTS`, and chooses the working directory;
  7. launches, and maps the exit code to the step's result.

  `Perform` is an imperative method. It is proved against `Prepare`, a function that states the whole decision as one value. The lemmas about `Prepare` state what the step promises.

Host code the plugin calls enters the model as function-valued fields of datatypes (`Node`, `Build`, `Launcher`, `Host`):
- variable expansion;
- file existence;
- `FilePath.getName`;
- `File.getParent`;
- the argument builder's property parsing, tokenising and Windows wrapping;
- the node translation of a tool's home;
- the process launch.

Java `null` is `Option.None`. The shared modules are `Wrappers` (`Option`), `Text` (the `java.lang.String` operations used) and `Hudson` (environments, `java.io.File`, `hudson.FilePath`).

Two behaviours of the code are easy to misread:
- **Laundering strips one separator only.** `launderHome` strips one trailing `/` or `\`, so `a//` becomes `a/`, and a laundered home can still end in a separator (`Installation.LaunderHomeNotIdempotent`).
- **Both notes are written, target first.** The annotator tests the target and outcome conditions independently. A line that meets both gets both notes, the target note first (`ConsoleAnnotator.NotesChoice`).

## Model

| member | source | states |
|---|---|---|
| Installation.LaunderHome | src/main/java/hudson/plugins/easyant/EasyAntInstallation.java:60-68 | the result is the home, or the home minus its last character, and it is shorter exactly when the home ends in `/` or `\` |
| Installation.LaunderedEndsWithSeparator | src/main/java/hudson/plugins/easyant/EasyAntInstallation.java:60-68 | a laundered home still ends in a separator exactly when the original ended in two |
| Installation.LaunderHomeNotIdempotent | src/main/java/hudson/plugins/easyant/EasyAntInstallation.java:60-68 | `a//` launders to `a/`, and laundering again gives `a`: one trailing separator is removed per call |
| Installation.LaunderHomeKeepsClean | src/main/java/hudson/plugins/easyant/EasyAntInstallation.java:65-67 | a home without a trailing separator is kept unchanged |
| Installation.NewInstallation | src/main/java/hudson/plugins/easyant/EasyAntInstallation.java:46-51 | the constructor keeps name and properties, stores the laundered home, and the deprecated `easyantHome` equals `getHome()` |
| Installation.NewInstallationWithoutProperties | src/main/java/hudson/plugins/easyant/EasyAntInstallation.java:56-58 | the deprecated constructor is the main one with no tool properties |
| Installation.ExeFile | src/main/java/hudson/plugins/easyant/EasyAntInstallation.java:87-92 | the file is `bin/easyant.bat` on Windows and `bin/easyant` otherwise, under the home expanded against the node's JVM environment |
| Installation.GetExecutable | src/main/java/hudson/plugins/easyant/EasyAntInstallation.java:74-92 | the file is `bin/easyant.bat` on Windows and `bin/easyant` otherwise, under the home expanded against the node's JVM environment; the path is returned iff that file exists, otherwise null |
| Installation.ForEnvironment | src/main/java/hudson/plugins/easyant/EasyAntInstallation.java:94-97 | a new installation with the same name and properties, whose home is the old one expanded against the environment and then laundered |
| Installation.ForNode | src/main/java/hudson/plugins/easyant/EasyAntInstallation.java:99-103 | a new installation with the same name and properties, whose home is the node-specific translation, laundered |
| Installation.ResolvedHome | src/main/java/hudson/plugins/easyant/EasyAntInstallation.java:94-103 | the node view followed by the environment view launders twice and keeps name and properties; the shared installation is an input value and is never changed |
| Installation.ForEnvironmentIdentity | src/main/java/hudson/plugins/easyant/EasyAntInstallation.java:94-97 | an environment that expands nothing, applied to a clean home, gives back an equal installation |
| Installation.DoCheckHome | src/main/java/hudson/plugins/easyant/EasyAntInstallation.java:139-162 | checks in order: non-admin gives ok, empty path gives ok, a non-directory gives "not a directory", a directory without `lib/easyant-core.jar` gives "not an EasyAnt directory", otherwise ok; each error iff its condition holds |
| Installation.DoCheckHomeHidesFileSystem | src/main/java/hudson/plugins/easyant/EasyAntInstallation.java:140-144 | for a caller without the administer permission the answer does not depend on the file system |
| ConsoleNotes.OutcomeMarkup | src/main/java/hudson/plugins/easyant/EasyAntOutcomeNote.java:18-26 | a failure span over the whole line iff it contains `FAIL`, a success span iff it contains `SUCCESS`, no other span, failure first when both apply |
| ConsoleNotes.VerdictLinesAreStyled | src/main/java/hudson/plugins/easyant/EasyAntOutcomeNote.java:19-24 | a `BUILD FAILED` line gets the failure span, a `BUILD SUCCESSFUL` line the success span |
| ConsoleNotes.LowerCaseLineIsNotStyled | src/main/java/hudson/plugins/easyant/EasyAntOutcomeNote.java:19-24 | the substring tests are case-sensitive: a line without an upper-case letter, such as `build failed`, gets no markup |
| ConsoleNotes.LineStart | src/main/java/hudson/plugins/easyant/EasyAntTargetNote.java:27 | the start of the line holding an offset: no regex line terminator (LF, CR, U+0085, U+2028, U+2029) between it and the offset, and a terminator or the text's start just before it |
| ConsoleNotes.LineEnd | src/main/java/hudson/plugins/easyant/EasyAntTargetNote.java:27 | the end of the line holding an offset: no terminator in between, and a terminator or the text's end at it |
| ConsoleNotes.TargetToken | src/main/java/hudson/plugins/easyant/EasyAntTargetNote.java:27 | no match iff the text has no colon; otherwise the match `find()` reports for `.*(?=:)`: it starts where the first colon's line starts, ends at a colon with no terminator in between, no colon lies before its start, and every later colon lies beyond a terminator |
| ConsoleNotes.TargetMarkup | src/main/java/hudson/plugins/easyant/EasyAntTargetNote.java:21-31 | when disabled, nothing; when enabled, one bold span iff the text has a colon, and that span is the match of `.*(?=:)`, the colon excluded |
| ConsoleNotes.TargetMarkupOnOneLine | src/main/java/hudson/plugins/easyant/EasyAntTargetNote.java:27-29 | on text without line terminators the bold span runs from the start to the last colon |
| ConsoleNotes.TargetMarkupStopsAtLineBreak | src/main/java/hudson/plugins/easyant/EasyAntTargetNote.java:27-29 | `.` does not cross a CR: in `a\rb:` only `b` is bold |
| ConsoleNotes.TargetLineIsStyled | src/main/java/hudson/plugins/easyant/EasyAntTargetNote.java:27-29 | a single line ending in a colon gets everything but that colon in bold |
| ConsoleNotes.TargetNoteEnabled | src/main/java/hudson/plugins/easyant/EasyAntTargetNote.java:41-42 | target markup is on unless the `...EasyAntTargetNote.disabled` system property reads `true`, in any case |
| ConsoleNotes.TargetNoteSwitch | src/main/java/hudson/plugins/easyant/EasyAntTargetNote.java:41-42 | an absent property leaves it on, `TRUE` switches it off, `yes` does not |
| ConsoleAnnotator.TrimEol | src/main/java/hudson/plugins/easyant/EasyAntConsoleAnnotator.java:30-31 | the trimmed line is a prefix of the line, does not end in CR or LF, and only CR/LF were removed |
| ConsoleAnnotator.NotesChoice | src/main/java/hudson/plugins/easyant/EasyAntConsoleAnnotator.java:33-39 | the notes `Notes` writes before a line: a target note iff the previous line was empty, the line ends in `:` and has no space; an outcome note iff it starts with `BUILD SUCCESSFUL` or `BUILD FAILED`; both possible, target first; at most two notes, none twice; notes carry no bytes |
| ConsoleAnnotator.EmptyLineHasNoTargetNote | src/main/java/hudson/plugins/easyant/EasyAntConsoleAnnotator.java:45-48 | an empty line never gets a target note, whatever preceded it |
| ConsoleAnnotator.FirstLineHasNoTargetNote | src/main/java/hudson/plugins/easyant/EasyAntConsoleAnnotator.java:19-35 | the first line never gets a target note, since the flag starts false |
| ConsoleAnnotator.AnnotateByLine | src/main/java/hudson/plugins/easyant/EasyAntConsoleAnnotator.java:26-43 | the output, line after line in input order, is that line's notes (decided by the trimmed line and whether the line before it was empty) followed by its bytes: every line written once, nothing else written |
| ConsoleAnnotator.AnnotateShape | src/main/java/hudson/plugins/easyant/EasyAntConsoleAnnotator.java:26-43 | in total at least one and at most three events per line, the last line's bytes last |
| ConsoleAnnotator.AnnotatePreservesBytes | src/main/java/hudson/plugins/easyant/EasyAntConsoleAnnotator.java:33-42 | leaving the notes aside, the wrapped stream receives exactly the input lines concatenated: nothing is dropped, added or reordered |
| ConsoleAnnotator.AnnotateNoteFree | src/main/java/hudson/plugins/easyant/EasyAntConsoleAnnotator.java:33-42 | when no line triggers a note, the wrapped stream receives exactly the lines' bytes, one after the other |
| ConsoleAnnotator.EasyAntConsoleAnnotator.constructor | src/main/java/hudson/plugins/easyant/EasyAntConsoleAnnotator.java:21-24 | a fresh annotator has written nothing and has not seen an empty line |
| ConsoleAnnotator.EasyAntConsoleAnnotator.Eol | src/main/java/hudson/plugins/easyant/EasyAntConsoleAnnotator.java:26-43 | on an open stream, writes the line's notes and then its bytes, sets the flag to "trimmed line is empty", and keeps the written events equal to `Annotate` of all lines so far |
| ConsoleAnnotator.EasyAntConsoleAnnotator.Close | src/main/java/hudson/plugins/easyant/EasyAntConsoleAnnotator.java:50-54 | a pending unterminated line is annotated as a last line first, then the wrapped stream is closed; closing again, with nothing pending, changes nothing else |
| EasyAntStep.FirstNamed | src/main/java/hudson/plugins/easyant/EasyAnt.java:92-99 | the index of the first installation with the given name, or none iff no installation has it |
| EasyAntStep.Lookup | src/main/java/hudson/plugins/easyant/EasyAnt.java:92-99 | none iff no name is configured or no installation has it; otherwise the first installation with that name |
| EasyAntStep.GetEasyAnt | src/main/java/hudson/plugins/easyant/EasyAnt.java:92-99 | null iff no name is configured or none matches; otherwise the first installation whose name equals the configured one |
| EasyAntStep.ExecutableArg | src/main/java/hudson/plugins/easyant/EasyAnt.java:109-124 | without an installation the bare command, `easyant` on Unix and `easyant.bat` otherwise; with one, the installation's executable lookup |
| EasyAntStep.ResolveExecutable | src/main/java/hudson/plugins/easyant/EasyAnt.java:109-124 | the installation seen from the node and then the build environment, and the executable to run |
| EasyAntStep.BuildFilePath | src/main/java/hudson/plugins/easyant/EasyAnt.java:195-226 | found iff the file exists under the module root or the workspace, the module root winning; when missing, the path reported is the one under the module root |
| EasyAntStep.Locate | src/main/java/hudson/plugins/easyant/EasyAnt.java:127-146 | a build module or file is looked up exactly when one is configured, and then it is the `buildFilePath` lookup of the name expanded against the build environment |
| EasyAntStep.Arguments | src/main/java/hudson/plugins/easyant/EasyAnt.java:126-155 | the command line starts with the executable and ends with the targets' tokens; its length is the sum of its parts |
| EasyAntStep.AddArguments | src/main/java/hudson/plugins/easyant/EasyAnt.java:126-155 | a missing module, then a missing file, stops with a fatal entry naming the module-root path; otherwise the arguments come in the fixed order |
| EasyAntStep.NormaliseTargets | src/main/java/hudson/plugins/easyant/EasyAnt.java:155 | the result is never longer than the targets, and empty exactly when they are |
| EasyAntStep.NormaliseRemovesSeparators | src/main/java/hudson/plugins/easyant/EasyAnt.java:155 | no tab, CR or LF is left in the targets |
| EasyAntStep.NormaliseKeepsPlainText | src/main/java/hudson/plugins/easyant/EasyAnt.java:155 | targets without tab, CR or LF are unchanged |
| EasyAntStep.NormaliseRun | src/main/java/hudson/plugins/easyant/EasyAnt.java:155 | a run of tabs, CRs and LFs, however long, becomes a single space |
| EasyAntStep.NormaliseAppend | src/main/java/hudson/plugins/easyant/EasyAnt.java:155 | texts that do not join a run across their boundary are normalised independently |
| EasyAntStep.NormaliseIdempotent | src/main/java/hudson/plugins/easyant/EasyAnt.java:155 | normalising twice is normalising once |
| EasyAntStep.FixKeepsTextWithoutEquals | src/main/java/hudson/plugins/easyant/EasyAnt.java:170 | text without an `=` is never rewritten |
| EasyAntStep.FlagAtWord | src/main/java/hudson/plugins/easyant/EasyAnt.java:170 | at a word followed by a space, the pattern matches exactly when the word is `-D<key>=` with a non-empty key and no quote |
| EasyAntStep.FixWord | src/main/java/hudson/plugins/easyant/EasyAnt.java:170 | a word followed by a space gains `""` exactly when it follows a space and is an empty-valued flag; the rest is rewritten on its own |
| EasyAntStep.FixLastWord | src/main/java/hudson/plugins/easyant/EasyAnt.java:170 | a final word, with no space after it, is never rewritten |
| EasyAntStep.FixSplit | src/main/java/hudson/plugins/easyant/EasyAnt.java:170 | no rewrite crosses a space: text split after a space is rewritten piece by piece |
| EasyAntStep.FixWords | src/main/java/hudson/plugins/easyant/EasyAnt.java:170 | on words joined by single spaces, exactly the empty-valued `-D` flags after a space and before the last word get `""`; nothing else changes |
| EasyAntStep.FixKeepsFirstWord | src/main/java/hudson/plugins/easyant/EasyAnt.java:170 | the first word, not preceded by a space, is never rewritten |
| EasyAntStep.FixLastArg | src/main/java/hudson/plugins/easyant/EasyAnt.java:168-172 | only the last argument changes, by the empty-value rewrite; length and all other arguments are kept |
| EasyAntStep.LaunchEnv | src/main/java/hudson/plugins/easyant/EasyAnt.java:157-161 | `EASYANT_HOME` is the resolved home when there is an installation; `EASYANT_OPTS` is the options expanded against the environment that already holds the new home; every other variable is the build's |
| EasyAntStep.WorkingDirectory | src/main/java/hudson/plugins/easyant/EasyAnt.java:175-182 | the module root iff no build file or a blank one; a throw iff the non-blank build file has no parent directory; otherwise the build file's parent taken under the module root |
| EasyAntStep.IntendedWorkingDirectory | src/main/java/hudson/plugins/easyant/EasyAnt.java:175-182 | always the module root or a directory directly under it; the module root for a build file without a parent directory |
| EasyAntStep.WorkingDirectoryAsWritten | src/main/java/hudson/plugins/easyant/EasyAnt.java:175-182 | where the code returns a directory it is the intended one; it throws exactly for a non-blank build file whose intended directory is the module root itself |
| EasyAntStep.LaunchDirectory | src/main/java/hudson/plugins/easyant/EasyAnt.java:175-182 | the imperative choice of the working directory computes `WorkingDirectory` |
| EasyAntStep.Prepare | src/main/java/hudson/plugins/easyant/EasyAnt.java:104-182 | a log entry that stops the step is either the missing-executable error or a fatal "unable to find" entry; a prepared command line is never empty |
| EasyAntStep.Perform | src/main/java/hudson/plugins/easyant/EasyAnt.java:101-193 | an abort launches nothing, returns false and logs its one entry; a throw while making the working directory launches and logs nothing; otherwise it launches exactly the prepared invocation, succeeds iff the exit code is 0, and logs a fatal entry iff the launch failed |
| EasyAntStep.PrepareAbortsIff | src/main/java/hudson/plugins/easyant/EasyAnt.java:109-182 | the step stops with a log entry iff the installation's script is missing on the node, or the module or the file is under neither root; otherwise it throws iff the build file is non-blank and has no parent directory |
| EasyAntStep.ParentlessBuildFileThrows | src/main/java/hudson/plugins/easyant/EasyAnt.java:175-182 | a build file `build.xml` found under the module root makes the step throw, where the module root was the intended directory |
| EasyAntStep.PrepareArgumentOrder | src/main/java/hudson/plugins/easyant/EasyAnt.java:104-155 | the command line is the executable, `-buildModule <name>`, `-buildFile <name>`, build variables, properties, then the targets' tokens |
| EasyAntStep.PrepareBareCommand | src/main/java/hudson/plugins/easyant/EasyAnt.java:110-112 | without an installation on Unix the command is `easyant`, and `EASYANT_HOME` is not added |
| EasyAntStep.PrepareWindowsCommand | src/main/java/hudson/plugins/easyant/EasyAnt.java:104-173 | off Unix the command line is the host's Windows form of the same arguments as on Unix (`Arguments`), with only its last argument rewritten |
| EasyAntStep.PrepareEnvironmentAndDirectory | src/main/java/hudson/plugins/easyant/EasyAnt.java:157-182 | `EASYANT_HOME` is the resolved home; the process runs in the intended directory: the module root, or the build file's parent under the module root, even when the build file was found through the workspace |

## Left out

- Line splitting and byte decoding belong to the host's line-transforming stream. Lines arrive split, terminators included, and decoding is the identity on `char`.
- `ConsoleNote.encodeTo` uses the host's serialisation format. Notes are the abstract events `TargetNote` and `OutcomeNote`, and each note's `annotate` is modelled by the markup spans it adds. Both return null, which is not represented.
- `java.util.regex` in `EasyAntTargetNote` is not modelled as a regex engine. The match of `.*(?=:)` is computed directly, with `.` excluding the five line terminators of a pattern compiled without flags.
- The argument builder's internals are host functions: `addKeyValuePairs`, `addKeyValuePairsFromPropertyString`, `addTokenized` and `toWindowsCommand`. Hiding sensitive values in displayed command lines is not modelled.
- Variable expansion, `translateFor`, `FilePath`/`File` path normalisation and `File.getParent` are host functions. `EnvVars` is a plain case-sensitive map.
- The `EasyAnt` constructor's `Util.fixEmptyAndTrim` is host code. The model takes the configured module, file, options and properties as already normalised: absent, or non-empty.
- `targets` is a string. A null `targets`, which would throw in `perform`, is not modelled.
- `IOException` and `InterruptedException` are left out, except a failure of the launch itself. The launch's other effects are not modelled: streaming stdout to the listener, and printing the stack trace.
- EasyAntStep.LaunchEnv: keys are compared exactly. Hudson's `EnvVars` compares keys ignoring case on every platform and keeps the first spelling. So for a build environment holding `easyant_home`, `put("EASYANT_HOME", home)` replaces that entry's value. The model keeps `easyant_home` and adds `EASYANT_HOME` beside it. `EASYANT_OPTS` behaves the same way.
- Installation.GetExecutable: holds where the lookup runs in the same JVM as the configured installation. `getExecutable` is a remote call over the launcher's channel. On an agent the installation arrives serialised, and its `transient` field `easyantHome` is null there. So the source looks up the relative file `bin/easyant` or `bin/easyant.bat` instead of the file under the expanded home. The model does not represent serialisation.
- Descriptors, persistence, form binding, `EasyAntInstaller` and `ConverterImpl` are configuration plumbing of the host.
- ConsoleNotes.TargetLineIsStyled: stated for text without line terminators. `TargetToken` states the span for any text.
- EasyAntStep.FixWords: covers command lines of non-empty, space-free words separated by single spaces. `FixSplit` and `FixEmpty` cover arbitrary text.
- EasyAntStep.PrepareArgumentOrder: stated for Unix. Off Unix the same arguments, with `easyant.bat` as the bare command, go through the host's `toWindowsCommand` (`PrepareWindowsCommand`).
- A NullPointerException thrown by `perform` is an outcome of `Perform`. What the host then does with it (the stack trace, the build's status) is not modelled.

## Findings

| source | as written | input that shows it | evidently intended | confidence | as-written member | corrected member |
|---|---|---|---|---|---|---|
| src/main/java/hudson/plugins/easyant/EasyAnt.java:175-182 | the working directory is `new FilePath(moduleRoot, new File(buildFile).getParent())`, and `getParent()` is null for a file name without a directory | build file `build.xml`, present under the module root | run in the module root | medium, not executed; relies on `FilePath(FilePath, String)` dereferencing its second argument | EasyAntStep.ParentlessBuildFileThrows | EasyAntStep.IntendedWorkingDirectory |
