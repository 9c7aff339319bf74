/**
 * EasyAntInstallation: a named pointer to an EasyAnt distribution. Every
 * derivation (`forNode`, `forEnvironment`) builds a new value through the
 * constructor, so the shared installation is never changed.
 */
module Installation {
  import opened Wrappers
  import opened Hudson

  const UnixCommand := "easyant"
  const WindowsCommand := "easyant.bat"
  /** The file whose presence marks a directory as an EasyAnt home. */
  const CoreJar := "lib/easyant-core.jar"

  /** A hudson.tools.ToolProperty, carried along unchanged. */
  datatype ToolProperty = ToolProperty(id: string)

  /**
   * `home` is the value ToolInstallation stores (`getHome()`); `easyantHome`
   * is the deprecated copy the class keeps for old configuration files.
   */
  datatype EasyAntInstallation = EasyAntInstallation(
    name: string,
    home: string,
    properties: seq<ToolProperty>,
    easyantHome: string)

  /**
   * The execution node as seen by the installation: its operating system, the
   * environment of its JVM, its file system, and the host's per-node
   * translation of an installation's home (`translateFor`).
   */
  datatype Node = Node(
    isWindows: bool,
    masterEnv: Env,
    fileExists: File -> bool,
    pathOf: File -> string,
    translate: EasyAntInstallation -> string)

  predicate IsSeparator(c: char)
  {
    c == '/' || c == '\\'
  }

  predicate EndsWithSeparator(s: string)
  {
    |s| > 0 && IsSeparator(s[|s| - 1])
  }

  /** Drops one trailing `/` or `\`, which Ant does not accept. */
  function LaunderHome(home: string): (r: string)
    ensures |r| == |home| || |r| == |home| - 1
    ensures r == home[..|r|]
    ensures |r| < |home| <==> EndsWithSeparator(home)
  {
    if EndsWithSeparator(home) then home[..|home| - 1] else home
  }

  /** Laundering leaves a trailing separator exactly when the home ended in two. */
  lemma LaunderedEndsWithSeparator(home: string)
    ensures EndsWithSeparator(LaunderHome(home))
        <==> |home| >= 2 && IsSeparator(home[|home| - 1]) && IsSeparator(home[|home| - 2])
  {
  }

  /** Laundering is not idempotent: "a//" becomes "a/", which launders to "a". */
  lemma LaunderHomeNotIdempotent()
    ensures LaunderHome("a//") == "a/"
    ensures LaunderHome(LaunderHome("a//")) == "a"
  {
    assert EndsWithSeparator("a//");
    assert "a//"[..2] == "a/";
    assert EndsWithSeparator("a/");
    assert "a/"[..1] == "a";
  }

  /** A home without a trailing separator is kept as it is. */
  lemma LaunderHomeKeepsClean(home: string)
    requires !EndsWithSeparator(home)
    ensures LaunderHome(home) == home
  {
  }

  /** The constructor `EasyAntInstallation(name, home, properties)`. */
  function NewInstallation(name: string, home: string, properties: seq<ToolProperty>): (r: EasyAntInstallation)
    ensures r.name == name && r.properties == properties
    ensures r.home == LaunderHome(home) && r.easyantHome == r.home
  {
    var laundered := LaunderHome(home);
    EasyAntInstallation(name, laundered, properties, laundered)
  }

  /** The deprecated two-argument constructor: no tool properties. */
  function NewInstallationWithoutProperties(name: string, home: string): (r: EasyAntInstallation)
    ensures r.name == name && r.properties == []
    ensures r.home == LaunderHome(home) && r.easyantHome == r.home
  {
    NewInstallation(name, home, [])
  }

  /** The launcher script's name on the node. */
  function CommandName(isWindows: bool): string
  {
    if isWindows then WindowsCommand else UnixCommand
  }

  /** `getExeFile`: `<home, expanded against the node's JVM environment>/bin/<script>`. */
  function ExeFile(inst: EasyAntInstallation, node: Node, expand: Expander): (r: File)
    ensures r.parent == expand(node.masterEnv, inst.easyantHome)
    ensures r.child == if node.isWindows then "bin/easyant.bat" else "bin/easyant"
  {
    assert "bin/" + WindowsCommand == "bin/easyant.bat" && "bin/" + UnixCommand == "bin/easyant";
    File(expand(node.masterEnv, inst.easyantHome), "bin/" + CommandName(node.isWindows))
  }

  /** `getExecutable`: the script's path on the node if it exists there, otherwise null. */
  function GetExecutable(inst: EasyAntInstallation, node: Node, expand: Expander): (r: Option<string>)
    ensures var exe := File(expand(node.masterEnv, inst.easyantHome),
                            if node.isWindows then "bin/easyant.bat" else "bin/easyant");
            (r.Some? <==> node.fileExists(exe)) && (r.Some? ==> r.value == node.pathOf(exe))
  {
    assert "bin/" + WindowsCommand == "bin/easyant.bat" && "bin/" + UnixCommand == "bin/easyant";
    var exe := ExeFile(inst, node, expand);
    if node.fileExists(exe) then Some(node.pathOf(exe)) else None
  }

  /** `forEnvironment`: a new installation whose home has its variable references expanded. */
  function ForEnvironment(inst: EasyAntInstallation, env: Env, expand: Expander): (r: EasyAntInstallation)
    ensures r.name == inst.name && r.properties == inst.properties
    ensures r.home == LaunderHome(expand(env, inst.easyantHome)) && r.easyantHome == r.home
  {
    NewInstallation(inst.name, expand(env, inst.easyantHome), inst.properties)
  }

  /** `forNode`: a new installation whose home is the node-specific location. */
  function ForNode(inst: EasyAntInstallation, node: Node): (r: EasyAntInstallation)
    ensures r.name == inst.name && r.properties == inst.properties
    ensures r.home == LaunderHome(node.translate(inst)) && r.easyantHome == r.home
  {
    NewInstallation(inst.name, node.translate(inst), inst.properties)
  }

  /**
   * What a build step runs with: the node view, then the environment view. Its
   * home goes through laundering twice, and the deprecated field of the shared
   * installation is never read.
   */
  lemma ResolvedHome(inst: EasyAntInstallation, node: Node, env: Env, expand: Expander)
    ensures var r := ForEnvironment(ForNode(inst, node), env, expand);
            r.name == inst.name && r.properties == inst.properties
            && r.home == LaunderHome(expand(env, LaunderHome(node.translate(inst))))
            && r.easyantHome == r.home
  {
  }

  /** Deriving with an environment that expands nothing gives the same installation back. */
  lemma ForEnvironmentIdentity(inst: EasyAntInstallation, env: Env, expand: Expander)
    requires inst.easyantHome == inst.home && !EndsWithSeparator(inst.home)
    requires expand(env, inst.home) == inst.home
    ensures ForEnvironment(inst, env, expand) == inst
  {
  }

  /** What `doCheckHome` reports about a candidate home directory. */
  datatype HomeError = NotADirectory(path: string) | NotAnEasyAntDirectory(path: string)
  datatype FormValidation = Ok | Error(error: HomeError)

  /**
   * `DescriptorImpl.doCheckHome`: checks, in order, the caller's permission,
   * an empty path, that the path is a directory, and that it holds the core jar.
   */
  function DoCheckHome(isAdmin: bool, value: string, isDirectory: string -> bool, fileExists: File -> bool): (r: FormValidation)
    ensures !isAdmin ==> r == Ok
    ensures isAdmin && value == "" ==> r == Ok
    ensures r == Error(NotADirectory(value))
        <==> isAdmin && value != "" && !isDirectory(value)
    ensures r == Error(NotAnEasyAntDirectory(value))
        <==> isAdmin && value != "" && isDirectory(value) && !fileExists(File(value, "lib/easyant-core.jar"))
    ensures r.Ok? || r == Error(NotADirectory(value)) || r == Error(NotAnEasyAntDirectory(value))
  {
    if !isAdmin then Ok
    else if value == "" then Ok
    else if !isDirectory(value) then Error(NotADirectory(value))
    else if !fileExists(File(value, CoreJar)) then Error(NotAnEasyAntDirectory(value))
    else Ok
  }

  /** A caller without the administer permission learns nothing about the file system. */
  lemma DoCheckHomeHidesFileSystem(value: string, isDirectory1: string -> bool, fileExists1: File -> bool,
                                   isDirectory2: string -> bool, fileExists2: File -> bool)
    ensures DoCheckHome(false, value, isDirectory1, fileExists1) == DoCheckHome(false, value, isDirectory2, fileExists2)
  {
  }
}
