/** `decorateResponse(res, { handler, version })`: conditional updates of a
    response's header table inside a try/catch. The environment
    (PROJECT_ENVIRONMENT, PROJECT_KEY) and the current invocation id are
    parameters. */
module DecorateResponse {
  import opened Values
  import opened Env
  import opened Http

  const PoweredBy := "X-Powered-By"
  const EnvironmentHeader := "X-Project-Environment"
  const HandlerHeader := "X-Project-Handler"
  const InvocationHeader := "X-Project-Invocation"
  const KeyHeader := "X-Project-Key"
  const VersionHeader := "X-Project-Version"
  const PoweredByValue := "knowdev.studio"

  const ProjectHeaderNames := {EnvironmentHeader, HandlerHeader, InvocationHeader, KeyHeader, VersionHeader}

  const NotAnObjectWarning := "decorateResponse called but response is not an object"
  const CaughtWarning := "decorateResponse caught an internal error"

  /** Powered-by is falsy when absent or empty. */
  predicate PoweredByReplaceable(h: map<string, string>)
  {
    PoweredBy !in h || h[PoweredBy] == "" || h[PoweredBy] == "Express"
  }

  function PoweredByHeaders(h: map<string, string>): map<string, string>
  {
    if PoweredByReplaceable(h) then h[PoweredBy := PoweredByValue] else h
  }

  /** The `setHeader` calls the decorator plans, in source order. */
  function ProjectHeaders(handler: string, version: string, env: Env): (p: map<string, string>)
    ensures p.Keys <= ProjectHeaderNames
    ensures EnvironmentHeader in p <==> Truthy(env.projectEnvironment)
    ensures EnvironmentHeader in p ==> p[EnvironmentHeader] == env.projectEnvironment.value
    ensures HandlerHeader in p <==> handler != ""
    ensures HandlerHeader in p ==> p[HandlerHeader] == handler
    ensures InvocationHeader in p <==> Truthy(env.invoke)
    ensures InvocationHeader in p ==> p[InvocationHeader] == env.invoke.value
    ensures KeyHeader in p <==> Truthy(env.projectKey)
    ensures KeyHeader in p ==> p[KeyHeader] == env.projectKey.value
    ensures VersionHeader in p <==> version != ""
    ensures VersionHeader in p ==> p[VersionHeader] == version
  {
    var withEnvironment := SetIf(map[], Truthy(env.projectEnvironment), EnvironmentHeader, env.projectEnvironment.GetOr(""));
    var withHandler := SetIf(withEnvironment, handler != "", HandlerHeader, handler);
    var withInvocation := SetIf(withHandler, Truthy(env.invoke), InvocationHeader, env.invoke.GetOr(""));
    var withKey := SetIf(withInvocation, Truthy(env.projectKey), KeyHeader, env.projectKey.GetOr(""));
    SetIf(withKey, version != "", VersionHeader, version)
  }

  /** One guarded `setHeader` call. */
  function SetIf(m: map<string, string>, cond: bool, k: string, v: string): map<string, string>
  {
    if cond then m[k := v] else m
  }

  predicate Throws(canGetSet: bool, canSetHeader: bool, handler: string, version: string, env: Env)
  {
    !canGetSet || (!canSetHeader && ProjectHeaders(handler, version, env) != map[])
  }

  /** The header table after the call; a throw stops the sequence where it
      happens, so only the updates before it remain. */
  function DecoratedHeaders(h: map<string, string>, canGetSet: bool, canSetHeader: bool,
                            handler: string, version: string, env: Env): map<string, string>
  {
    if !canGetSet then h
    else if canSetHeader then PoweredByHeaders(h) + ProjectHeaders(handler, version, env)
    else PoweredByHeaders(h)
  }

  method Decorate(res: Response?, handler: string, version: string, env: Env, log: Log)
    modifies (if res == null then {} else {res})`headers, log`warnings
    ensures res == null ==> log.warnings == old(log.warnings) + [NotAnObjectWarning]
    ensures res != null ==>
      res.headers == DecoratedHeaders(old(res.headers), res.canGetSet, res.canSetHeader, handler, version, env)
    ensures res != null ==>
      log.warnings == old(log.warnings)
                      + (if Throws(res.canGetSet, res.canSetHeader, handler, version, env) then [CaughtWarning] else [])
  {
    if res == null {
      log.warnings := log.warnings + [NotAnObjectWarning];
      return;
    }
    ghost var h0 := res.headers;
    var planned := ProjectHeaders(handler, version, env);
    if !res.canGetSet {
      log.warnings := log.warnings + [CaughtWarning];
      return;
    }
    var poweredBy := if PoweredBy in res.headers then res.headers[PoweredBy] else "";
    if poweredBy == "" || poweredBy == "Express" {
      res.headers := res.headers[PoweredBy := PoweredByValue];
    }
    assert res.headers == PoweredByHeaders(h0);
    if !res.canSetHeader && planned != map[] {
      // The first planned `setHeader` throws; nothing after it runs.
      log.warnings := log.warnings + [CaughtWarning];
      return;
    }
    SetProjectHeaders(res, handler, version, env);
  }

  /** The `setHeader` sequence on a response that supports it. */
  method SetProjectHeaders(res: Response, handler: string, version: string, env: Env)
    modifies res`headers
    ensures res.headers == old(res.headers) + ProjectHeaders(handler, version, env)
  {
    // `added` tracks the headers set so far, in the shape of ProjectHeaders.
    ghost var base := res.headers;
    ghost var added: map<string, string> := map[];
    assert base + added == base;
    if Truthy(env.projectEnvironment) {
      UnionUpdate(base, added, EnvironmentHeader, env.projectEnvironment.value);
      res.headers := res.headers[EnvironmentHeader := env.projectEnvironment.value];
    }
    added := SetIf(added, Truthy(env.projectEnvironment), EnvironmentHeader, env.projectEnvironment.GetOr(""));
    if handler != "" {
      UnionUpdate(base, added, HandlerHeader, handler);
      res.headers := res.headers[HandlerHeader := handler];
    }
    added := SetIf(added, handler != "", HandlerHeader, handler);
    if Truthy(env.invoke) {
      UnionUpdate(base, added, InvocationHeader, env.invoke.value);
      res.headers := res.headers[InvocationHeader := env.invoke.value];
    }
    added := SetIf(added, Truthy(env.invoke), InvocationHeader, env.invoke.GetOr(""));
    if Truthy(env.projectKey) {
      UnionUpdate(base, added, KeyHeader, env.projectKey.value);
      res.headers := res.headers[KeyHeader := env.projectKey.value];
    }
    added := SetIf(added, Truthy(env.projectKey), KeyHeader, env.projectKey.GetOr(""));
    if version != "" {
      UnionUpdate(base, added, VersionHeader, version);
      res.headers := res.headers[VersionHeader := version];
    }
    added := SetIf(added, version != "", VersionHeader, version);
  }

  lemma UnionUpdate(base: map<string, string>, added: map<string, string>, k: string, v: string)
    ensures (base + added)[k := v] == base + added[k := v]
  {
  }

  /** Powered-by is set to "knowdev.studio" exactly when it was unset, empty
      or "Express"; any other value is kept. */
  lemma PoweredByRule(h: map<string, string>, canSetHeader: bool, handler: string, version: string, env: Env)
    ensures var r := DecoratedHeaders(h, true, canSetHeader, handler, version, env);
      PoweredBy in r && r[PoweredBy] == (if PoweredByReplaceable(h) then PoweredByValue else h[PoweredBy])
  {
    assert PoweredBy !in ProjectHeaders(handler, version, env);
  }

  /** With a working response every planned project header is set to its
      planned value, and a project header that is not planned is untouched. */
  lemma ProjectHeaderRule(h: map<string, string>, handler: string, version: string, env: Env, k: string)
    requires k in ProjectHeaderNames
    ensures var r := DecoratedHeaders(h, true, true, handler, version, env);
      var p := ProjectHeaders(handler, version, env);
      (k in p ==> k in r && r[k] == p[k])
      && (k !in p ==> (k in r <==> k in h) && (k in h ==> r[k] == h[k]))
  {
  }

  /** No header outside powered-by and the five project headers is ever
      touched, whatever the response supports. */
  lemma OtherHeadersUnchanged(h: map<string, string>, canGetSet: bool, canSetHeader: bool,
                              handler: string, version: string, env: Env, k: string)
    requires k != PoweredBy && k !in ProjectHeaderNames
    ensures var r := DecoratedHeaders(h, canGetSet, canSetHeader, handler, version, env);
      (k in r <==> k in h) && (k in h ==> r[k] == h[k])
  {
  }

  /** With fixed inputs a second call leaves the header table as the first
      one left it. */
  lemma DecorateIdempotent(h: map<string, string>, canGetSet: bool, canSetHeader: bool,
                           handler: string, version: string, env: Env)
    ensures var once := DecoratedHeaders(h, canGetSet, canSetHeader, handler, version, env);
      DecoratedHeaders(once, canGetSet, canSetHeader, handler, version, env) == once
  {
    var p := ProjectHeaders(handler, version, env);
    assert PoweredBy !in p;
    if canGetSet {
      var once := DecoratedHeaders(h, canGetSet, canSetHeader, handler, version, env);
      assert PoweredBy in once && once[PoweredBy] == PoweredByHeaders(h)[PoweredBy];
      assert !PoweredByReplaceable(once);
      if canSetHeader {
        assert once + p == once;
      }
    }
  }
}
