/**
 * Values of the CI host that the plugin only passes around: environments,
 * java.io.File and hudson.FilePath. Their behaviour (expansion of variable
 * references, existence on disk, path normalisation) belongs to the host and
 * enters the model as function-valued parameters.
 */
module Hudson {
  /** hudson.EnvVars: environment variable name to value. */
  type Env = map<string, string>

  /** `EnvVars.expand(s)` / `Util.replaceMacro(s, env)`: `${VAR}` references resolved against an environment. */
  type Expander = (Env, string) -> string

  /** `new java.io.File(parent, child)`. */
  datatype File = File(parent: string, child: string)

  /**
   * hudson.FilePath: a root handed over by the build (module root, workspace),
   * or `new FilePath(base, rel)`. That constructor first asks whether `rel` is
   * absolute, so a null `rel` throws a NullPointerException and makes no path.
   */
  datatype FilePath = Root(remote: string) | Child(base: FilePath, rel: string)

  /** A child path is never its own base. */
  lemma {:induction false} ChildIsNotBase(base: FilePath, rel: string)
    ensures Child(base, rel) != base
    decreases base
  {
    if base.Child? && base.rel == rel {
      ChildIsNotBase(base.base, rel);
    }
  }
}
