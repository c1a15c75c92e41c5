/** The process environment and the current-invocation lookup, read by the
    wrapper at wrap time or by the decorator at call time. An unset variable
    is `None`; `PROJECT_UNAVAILABLE` is given already parsed as a boolean. */
module Env {
  import opened Values

  datatype Env = Env(
    projectCommit: Option<string>,        // PROJECT_COMMIT
    projectEnv: Option<string>,           // PROJECT_ENV (log tag)
    projectEnvironment: Option<string>,   // PROJECT_ENVIRONMENT (response header)
    projectKey: Option<string>,           // PROJECT_KEY
    projectVersion: Option<string>,       // PROJECT_VERSION
    npmPackageVersion: Option<string>,    // npm_package_version
    projectUnavailable: bool,             // envBoolean("PROJECT_UNAVAILABLE", { defaultValue: false })
    invoke: Option<string>                // getCurrentInvokeUuid()
  )
}
