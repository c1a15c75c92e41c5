/** `getEnvironmentTags`: the tags the logger is created with. Building the
    logger itself is I/O and is not part of this model. */
module LogUtil {
  import opened Values
  import opened Env

  const TagKeys: set<string> := {"commit", "env", "invoke", "shortInvoke", "project", "version"}

  /** Builds the tag object field by field, each only when its source is truthy. */
  method GetEnvironmentTags(env: Env) returns (tags: map<string, string>)
    ensures tags.Keys <= TagKeys
    ensures "commit" in tags <==> Truthy(env.projectCommit)
    ensures "commit" in tags ==> tags["commit"] == env.projectCommit.value
    ensures "env" in tags <==> Truthy(env.projectEnv)
    ensures "env" in tags ==> tags["env"] == env.projectEnv.value
    ensures "invoke" in tags <==> Truthy(env.invoke)
    ensures "shortInvoke" in tags <==> "invoke" in tags
    ensures "invoke" in tags ==> tags["invoke"] == env.invoke.value
    ensures "invoke" in tags ==>
              var full, short := tags["invoke"], tags["shortInvoke"];
              |short| == (if |full| < 8 then |full| else 8) && short == full[..|short|]
    ensures "project" in tags <==> Truthy(env.projectKey)
    ensures "project" in tags ==> tags["project"] == env.projectKey.value
    ensures "version" in tags <==> Truthy(env.npmPackageVersion) || Truthy(env.projectVersion)
    ensures "version" in tags ==>
              tags["version"] == if Truthy(env.npmPackageVersion) then env.npmPackageVersion.value
                                 else env.projectVersion.value
  {
    tags := map[];
    if Truthy(env.projectCommit) {
      tags := tags["commit" := env.projectCommit.value];
    }
    if Truthy(env.projectEnv) {
      tags := tags["env" := env.projectEnv.value];
    }
    var invoke := env.invoke;
    if Truthy(invoke) {
      tags := tags["invoke" := invoke.value];
      // invoke.slice(0, 8)
      var short := if |invoke.value| < 8 then invoke.value else invoke.value[..8];
      tags := tags["shortInvoke" := short];
    }
    if Truthy(env.projectKey) {
      tags := tags["project" := env.projectKey.value];
    }
    if Truthy(env.npmPackageVersion) || Truthy(env.projectVersion) {
      tags := tags["version" := if Truthy(env.npmPackageVersion) then env.npmPackageVersion.value
                                else env.projectVersion.value];
    }
  }
}
