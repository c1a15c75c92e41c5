/** The older, synchronous `projectHandler(handler, options)`. Every
    invocation wraps whatever `res.json` currently is in a fresh hook that
    keeps the body it captures in its own closure variable, registers its
    own `finish` listener reading that variable, and calls the handler
    without awaiting it. */
module ProjectHandlerFunction {
  import opened Values
  import opened Env
  import opened Errors
  import opened SummarizeRequest
  import opened Http
  import opened DecorateResponse
  import opened ResponseHooks
  import opened Steps
  import ProjectHandlerModule

  /** The options object; an absent option is `None` and takes its default. */
  datatype LegacyOptions = LegacyOptions(name: Option<string>, unavailable: Option<bool>, version: Option<string>)

  /** What the returned wrapper closes over. */
  datatype LegacyWrapped = LegacyWrapped(
    handler: Handler, name: Option<string>, unavailable: bool, version: Option<string>)

  /** The factory. Unlike the newer one, it never falls back to
      `handler.name`: an absent name stays absent. */
  function LegacyProjectHandler(handler: Handler, opts: LegacyOptions, env: Env): (w: LegacyWrapped)
    ensures w.handler == handler && w.name == opts.name
    ensures w.unavailable == (if opts.unavailable.Some? then opts.unavailable.value else env.projectUnavailable)
    ensures w.version == (if opts.version.Some? then opts.version else env.projectVersion)
  {
    LegacyWrapped(handler, opts.name, opts.unavailable.GetOr(env.projectUnavailable),
                  if opts.version.Some? then opts.version else env.projectVersion)
  }

  // ----- The run, as a specification -----

  /** The availability gate throws inside the `try`; otherwise the handler
      is called once, and only a synchronous throw reaches the `catch`. */
  function LegacyPlan(w: LegacyWrapped, params: seq<Value>): ProjectHandlerModule.Plan
  {
    if w.unavailable then ProjectHandlerModule.Plan([], [], Some(Project(Unavailable)))
    else
      var a := w.handler.action;
      ProjectHandlerModule.Plan([Call(Handle, a, params)], [], if a.outcome.Threw? then Some(a.outcome.error) else None)
  }

  /** The bodies one invocation passes to `res.json`, in order. */
  function LegacyBodies(w: LegacyWrapped, params: seq<Value>): seq<Value>
  {
    var p := LegacyPlan(w, params);
    Sends(p.calls) + ProjectHandlerModule.ReplySends(p.final)
  }

  /** An unavailable wrapper never calls its handler and answers with the
      unavailable error's status and JSON. */
  lemma LegacyUnavailableRunsNothing(w: LegacyWrapped, params: seq<Value>, code: int)
    requires w.unavailable
    ensures LegacyPlan(w, params).calls == []
    ensures LegacyBodies(w, params) == [Json(Unavailable)]
    ensures ProjectHandlerModule.FinalStatus(code, LegacyPlan(w, params)) == Status(Unavailable)
  {
  }

  /** A handler that throws synchronously is answered with the error's own
      status and JSON if it is a project error, and with a generic
      unhandled error's otherwise, after whatever it sent itself. */
  lemma LegacyCatchesSynchronousThrow(w: LegacyWrapped, params: seq<Value>, code: int)
    requires !w.unavailable && w.handler.action.outcome.Threw?
    ensures var t := w.handler.action.outcome.error;
      var own := if w.handler.action.send.Some? then [w.handler.action.send.value] else [];
      LegacyBodies(w, params) == own + [Json(Classify(t))]
      && ProjectHandlerModule.FinalStatus(code, LegacyPlan(w, params)) == Status(Classify(t))
      && (t.IsProjectError() ==> Classify(t) == t.error)
      && (!t.IsProjectError() ==> Status(Classify(t)) == 500)
      && (!t.Nullish? ==> LegacyBodiesAsWritten(w, params) == LegacyBodies(w, params))
  {
    SendsOne(Call(Handle, w.handler.action, params));
  }

  /** How the wrapper ends as written: the catch reads `error.isProjectError`,
      which throws for `null` and `undefined`, so such a throw leaves the
      wrapper instead of being answered. */
  function LegacyEndingAsWritten(w: LegacyWrapped, params: seq<Value>): ProjectHandlerModule.Ending
  {
    ProjectHandlerModule.OuterEnding(LegacyPlan(w, params).final)
  }

  /** The bodies one invocation passes to `res.json`, as written. */
  function LegacyBodiesAsWritten(w: LegacyWrapped, params: seq<Value>): seq<Value>
  {
    Sends(LegacyPlan(w, params).calls) + ProjectHandlerModule.WrittenReplySends(LegacyEndingAsWritten(w, params))
  }

  /** As written, a handler that synchronously throws `null` or `undefined`
      gets no reply from the wrapper, which throws a `TypeError` itself; the
      intended reading answers it with a 500 and the unhandled error's body. */
  lemma LegacyNullishThrowEscapes(w: LegacyWrapped, params: seq<Value>)
    requires !w.unavailable && w.handler.action.outcome == Threw(Nullish)
    ensures var own := if w.handler.action.send.Some? then [w.handler.action.send.value] else [];
      LegacyEndingAsWritten(w, params) == ProjectHandlerModule.Escaped
      && LegacyBodiesAsWritten(w, params) == own
      && LegacyBodies(w, params) == own + [Json(Unhandled)]
  {
    SendsOne(Call(Handle, w.handler.action, params));
  }

  /** The older wrapper does not await: a handler whose promise rejects gets
      no reply from the wrapper, while the newer wrapper, with no other
      option set, answers it with the classified error. */
  lemma RejectionEscapesLegacyOnly(w: LegacyWrapped, params: seq<Value>)
    requires !w.unavailable && w.handler.action.outcome.Rejected?
    ensures LegacyPlan(w, params).final.None?
    ensures var m := ProjectHandlerModule.ProjectHandler(w.handler, ProjectHandlerModule.NoOptions.(unavailable := Some(false)), Env(None, None, None, None, None, None, false, None));
      ProjectHandlerModule.ModulePlan(m, params).final == Some(Project(Classify(w.handler.action.outcome.error)))
      && ProjectHandlerModule.WrittenReplySends(ProjectHandlerModule.ModulePlanAsWritten(m, params).ending)
         == [Json(Classify(w.handler.action.outcome.error))]
  {
    var m := ProjectHandlerModule.ProjectHandler(w.handler, ProjectHandlerModule.NoOptions.(unavailable := Some(false)), Env(None, None, None, None, None, None, false, None));
    ProjectHandlerModule.PlanShape(m, params);
    ProjectHandlerModule.TeardownErrorsIff([]);
    assert ProjectHandlerModule.CaughtErrors(w.handler.action) == [Classify(w.handler.action.outcome.error)];
    if w.handler.action.outcome.error != Nullish {
      ProjectHandlerModule.AsWrittenAgrees(m, params);
    }
  }

  // ----- The wrapper, step by step -----

  /** The headers the older hook's decorator call leaves: it passes no
      handler, only the version. */
  function LegacyHeaders(h: map<string, string>, canGetSet: bool, canSetHeader: bool,
                         version: Option<string>, env: Env): map<string, string>
  {
    DecoratedHeaders(h, canGetSet, canSetHeader, "", version.GetOr(""), env)
  }

  /** The warning the older hook's decorator call logs, if it fails. */
  function LegacyWarnings(canGetSet: bool, canSetHeader: bool, version: Option<string>, env: Env): seq<string>
  {
    if Throws(canGetSet, canSetHeader, "", version.GetOr(""), env) then [CaughtWarning] else []
  }

  /** What holds between invocations of older wrappers on one request and
      one response (which the framework created with its own `json`): each
      flag counts its log entry, the request summary comes first, every hook
      in the chain owns a closure slot, and the response is decorated once
      something is sent, exactly once. */
  ghost predicate LegacyInv(req: Request, res: Response, log: Log)
    reads req`scratch, res, log`infos, log`handlerTags, log`traceModeNotices
  {
    && log.handlerTags == []
    && (req.scratch.None? ==> log.infos == [] && log.traceModeNotices == 0 && res.listeners == [])
    && (req.scratch.Some? ==>
          var s := req.scratch.value;
          log.traceModeNotices == ProjectHandlerModule.B2n(s.loggedTraceMode)
          && |log.infos| == ProjectHandlerModule.B2n(s.loggedRequestInfo) + ProjectHandlerModule.B2n(s.loggedResponseInfo)
          && (s.loggedRequestInfo ==> log.infos[0] == RequestInfo(SummarizeRequest.SummarizeRequest(req.data)))
          && (s.loggedResponseInfo ==> s.loggedRequestInfo && log.infos[1].ResponseInfo?)
          && (|res.listeners| > 0 ==> s.loggedRequestInfo))
    && (res.scratch.None? ==>
          res.json == Native && res.slots == [] && res.sent == [] && res.decorations == [] && res.listeners == [])
    && (res.scratch.Some? ==>
          var s := res.scratch.value;
          s.originalJson.None? && s.logResponseBodyJson.None? && Ready(res.json, res)
          && (s.decoratedResponse <==> |res.sent| > 0)
          && |res.decorations| == ProjectHandlerModule.B2n(s.decoratedResponse))
  }

  /** `res.json(body)` once a hook is installed: the outermost hook
      captures the body in its slot and decorates, unless the response is
      already decorated; the framework receives the body either way. */
  method Send(body: Value, req: Request, res: Response, log: Log, env: Env)
    requires LegacyInv(req, res, log) && res.scratch.Some? && res.json.LegacyHook?
    modifies res`scratch, res`slots, res`sent, res`decorations, res`headers, log`warnings
    ensures LegacyInv(req, res, log) && res.scratch.Some? && res.Decorated()
    ensures res.sent == old(res.sent) + [body]
    ensures old(res.Decorated()) ==>
      res.slots == old(res.slots) && res.decorations == old(res.decorations)
      && res.headers == old(res.headers) && log.warnings == old(log.warnings)
    ensures !old(res.Decorated()) ==>
      res.slots == old(res.slots)[res.json.slot := Some(body)]
      && res.decorations == old(res.decorations) + [Decoration(None, res.json.version)]
      && res.headers == LegacyHeaders(old(res.headers), res.canGetSet, res.canSetHeader, res.json.version, env)
      && log.warnings == old(log.warnings) + LegacyWarnings(res.canGetSet, res.canSetHeader, res.json.version, env)
  {
    Dispatch(res.json, res, log, env, body);
  }

  /** The handler runs synchronously: `res.status(code)`, then
      `res.json(body)`. */
  method Perform(a: Action, req: Request, res: Response, log: Log, env: Env)
    requires LegacyInv(req, res, log) && res.scratch.Some? && res.json.LegacyHook?
    modifies res`statusCode, res`scratch, res`slots, res`sent, res`decorations, res`headers, log`warnings
    ensures LegacyInv(req, res, log) && res.scratch.Some?
    ensures res.statusCode == a.status.GetOr(old(res.statusCode))
    ensures a.send.None? ==>
      res.scratch == old(res.scratch) && res.sent == old(res.sent) && res.slots == old(res.slots)
      && res.decorations == old(res.decorations) && res.headers == old(res.headers) && log.warnings == old(log.warnings)
    ensures a.send.Some? ==> res.Decorated() && res.sent == old(res.sent) + [a.send.value]
    ensures a.send.Some? && old(res.Decorated()) ==>
      res.slots == old(res.slots) && res.decorations == old(res.decorations)
      && res.headers == old(res.headers) && log.warnings == old(log.warnings)
    ensures a.send.Some? && !old(res.Decorated()) ==>
      res.slots == old(res.slots)[res.json.slot := Some(a.send.value)]
      && res.decorations == old(res.decorations) + [Decoration(None, res.json.version)]
      && res.headers == LegacyHeaders(old(res.headers), res.canGetSet, res.canSetHeader, res.json.version, env)
      && log.warnings == old(log.warnings) + LegacyWarnings(res.canGetSet, res.canSetHeader, res.json.version, env)
  {
    if a.status.Some? {
      res.statusCode := a.status.value;
    }
    if a.send.Some? {
      Send(a.send.value, req, res, log, env);
    }
  }

  /** From the availability gate to the end of the `catch`. The first body
      sent, if the response was not yet decorated, lands in the outermost
      hook's slot. */
  method Run(w: LegacyWrapped, params: seq<Value>, req: Request, res: Response, log: Log, env: Env)
    returns (calls: seq<Call>)
    requires LegacyInv(req, res, log) && res.scratch.Some? && res.json.LegacyHook?
    modifies res`statusCode, res`scratch, res`slots, res`sent, res`decorations, res`headers, log`warnings
    ensures LegacyInv(req, res, log) && res.scratch.Some?
    ensures calls == LegacyPlan(w, params).calls
    ensures res.sent == old(res.sent) + LegacyBodies(w, params)
    ensures res.statusCode == ProjectHandlerModule.FinalStatus(old(res.statusCode), LegacyPlan(w, params))
    ensures res.Decorated() == (old(res.Decorated()) || |LegacyBodies(w, params)| > 0)
    ensures old(res.Decorated()) || |LegacyBodies(w, params)| == 0 ==>
      res.slots == old(res.slots) && res.decorations == old(res.decorations)
      && res.headers == old(res.headers) && log.warnings == old(log.warnings)
    ensures !old(res.Decorated()) && |LegacyBodies(w, params)| > 0 ==>
      res.slots == old(res.slots)[res.json.slot := Some(LegacyBodies(w, params)[0])]
      && res.decorations == old(res.decorations) + [Decoration(None, res.json.version)]
      && res.headers == LegacyHeaders(old(res.headers), res.canGetSet, res.canSetHeader, res.json.version, env)
      && log.warnings == old(log.warnings) + LegacyWarnings(res.canGetSet, res.canSetHeader, res.json.version, env)
  {
    if w.unavailable {
      calls := [];
      LegacyUnavailableRunsNothing(w, params, old(res.statusCode));
      Reply(Project(Unavailable), req, res, log, env);
    } else {
      calls := RunHandler(w, params, req, res, log, env);
    }
  }

  /** What one invocation past the availability gate sends, and the status
      it leaves. */
  lemma HandlerBodies(w: LegacyWrapped, params: seq<Value>, code: int)
    requires !w.unavailable
    ensures var a := w.handler.action;
      var own := if a.send.Some? then [a.send.value] else [];
      LegacyPlan(w, params).calls == [Call(Handle, a, params)]
      && (a.outcome.Threw? ==>
            LegacyBodies(w, params) == own + [ErrorReply(a.outcome.error).body]
            && ProjectHandlerModule.FinalStatus(code, LegacyPlan(w, params)) == ErrorReply(a.outcome.error).status)
      && (!a.outcome.Threw? ==>
            LegacyBodies(w, params) == own
            && ProjectHandlerModule.FinalStatus(code, LegacyPlan(w, params)) == a.status.GetOr(code))
  {
    SendsOne(Call(Handle, w.handler.action, params));
    LastStatusOne(code, Call(Handle, w.handler.action, params));
  }

  /** The handler, called without awaiting it, and the `catch` for a
      synchronous throw. */
  method RunHandler(w: LegacyWrapped, params: seq<Value>, req: Request, res: Response, log: Log, env: Env)
    returns (calls: seq<Call>)
    requires LegacyInv(req, res, log) && res.scratch.Some? && res.json.LegacyHook? && !w.unavailable
    modifies res`statusCode, res`scratch, res`slots, res`sent, res`decorations, res`headers, log`warnings
    ensures LegacyInv(req, res, log) && res.scratch.Some?
    ensures calls == LegacyPlan(w, params).calls
    ensures res.sent == old(res.sent) + LegacyBodies(w, params)
    ensures res.statusCode == ProjectHandlerModule.FinalStatus(old(res.statusCode), LegacyPlan(w, params))
    ensures res.Decorated() == (old(res.Decorated()) || |LegacyBodies(w, params)| > 0)
    ensures old(res.Decorated()) || |LegacyBodies(w, params)| == 0 ==>
      res.slots == old(res.slots) && res.decorations == old(res.decorations)
      && res.headers == old(res.headers) && log.warnings == old(log.warnings)
    ensures !old(res.Decorated()) && |LegacyBodies(w, params)| > 0 ==>
      res.slots == old(res.slots)[res.json.slot := Some(LegacyBodies(w, params)[0])]
      && res.decorations == old(res.decorations) + [Decoration(None, res.json.version)]
      && res.headers == LegacyHeaders(old(res.headers), res.canGetSet, res.canSetHeader, res.json.version, env)
      && log.warnings == old(log.warnings) + LegacyWarnings(res.canGetSet, res.canSetHeader, res.json.version, env)
  {
    var a := w.handler.action;
    HandlerBodies(w, params, old(res.statusCode));
    calls := [Call(Handle, a, params)];
    Perform(a, req, res, log, env);
    if a.outcome.Threw? {
      Reply(a.outcome.error, req, res, log, env);
    }
  }

  /** The `catch`: the error's own status and JSON, or a generic
      `UnhandledError`'s for anything that is not a project error. */
  method Reply(t: Thrown, req: Request, res: Response, log: Log, env: Env)
    requires LegacyInv(req, res, log) && res.scratch.Some? && res.json.LegacyHook?
    modifies res`statusCode, res`scratch, res`slots, res`sent, res`decorations, res`headers, log`warnings
    ensures LegacyInv(req, res, log) && res.scratch.Some? && res.Decorated()
    ensures res.statusCode == ErrorReply(t).status
    ensures res.sent == old(res.sent) + [ErrorReply(t).body]
    ensures old(res.Decorated()) ==>
      res.slots == old(res.slots) && res.decorations == old(res.decorations)
      && res.headers == old(res.headers) && log.warnings == old(log.warnings)
    ensures !old(res.Decorated()) ==>
      res.slots == old(res.slots)[res.json.slot := Some(ErrorReply(t).body)]
      && res.decorations == old(res.decorations) + [Decoration(None, res.json.version)]
      && res.headers == LegacyHeaders(old(res.headers), res.canGetSet, res.canSetHeader, res.json.version, env)
      && log.warnings == old(log.warnings) + LegacyWarnings(res.canGetSet, res.canSetHeader, res.json.version, env)
  {
    var reply := ErrorReply(t);
    res.statusCode := reply.status;
    Send(reply.body, req, res, log, env);
  }

  /** Scratch records, the trace-mode notice, the request log, a new
      response hook around the current `res.json`, with a new closure slot,
      and its finish listener: everything before the availability gate. */
  method Prepare(w: LegacyWrapped, req: Request, res: Response, log: Log)
    requires LegacyInv(req, res, log)
    modifies req`locals, req`scratch, res`hasLocals, res`scratch, res`json, res`listeners, res`slots,
             log`infos, log`traceModeNotices
    ensures LegacyInv(req, res, log) && res.scratch.Some? && res.json.LegacyHook?
    ensures req.locals == Some(old(req.locals).GetOr(map[])) && res.hasLocals
    ensures req.scratch == Some(old(req.scratch).GetOr(FreshReqScratch).(loggedTraceMode := true, loggedRequestInfo := true))
    ensures log.infos == old(log.infos)
                         + (if ProjectHandlerModule.FirstOnRequest(old(req.scratch))
                            then [RequestInfo(SummarizeRequest.SummarizeRequest(req.data))] else [])
    ensures res.scratch == Some(old(res.scratch).GetOr(FreshResScratch)) && res.Decorated() == old(res.Decorated())
    ensures res.json == LegacyHook(w.name, w.version, |old(res.slots)|, old(res.json))
    ensures res.slots == old(res.slots) + [None]
    ensures res.listeners == old(res.listeners) + [LegacyFinish(|old(res.slots)|)]
  {
    CreateScratch(req, res, log);
    LogRequest(req, res, log);
    var slot := |res.slots|;
    ReadyWithMoreSlots(res.json, true, None, slot, slot + 1);
    res.slots := res.slots + [None];
    res.json := LegacyHook(w.name, w.version, slot, res.json);
    res.listeners := res.listeners + [LegacyFinish(slot)];
  }

  /** `req.locals`, `res.locals` and their scratch records, each created
      only when absent. */
  method CreateScratch(req: Request, res: Response, log: Log)
    requires LegacyInv(req, res, log)
    modifies req`locals, req`scratch, res`hasLocals, res`scratch
    ensures LegacyInv(req, res, log)
    ensures req.locals == Some(old(req.locals).GetOr(map[])) && res.hasLocals
    ensures req.scratch == Some(old(req.scratch).GetOr(FreshReqScratch))
    ensures res.scratch == Some(old(res.scratch).GetOr(FreshResScratch))
  {
    if req.locals.None? {
      req.locals := Some(map[]);
    }
    if req.scratch.None? {
      req.scratch := Some(FreshReqScratch);
    }
    CreateResponseScratch(req, res, log);
  }

  method CreateResponseScratch(req: Request, res: Response, log: Log)
    requires LegacyInv(req, res, log)
    modifies res`hasLocals, res`scratch
    ensures LegacyInv(req, res, log)
    ensures res.hasLocals && res.scratch == Some(old(res.scratch).GetOr(FreshResScratch))
  {
    if !res.hasLocals {
      res.hasLocals := true;
    }
    if res.scratch.None? {
      res.scratch := Some(FreshResScratch);
    }
  }

  /** The trace-mode notice and the `{ req }` summary, each once per
      request. */
  method LogRequest(req: Request, res: Response, log: Log)
    requires LegacyInv(req, res, log) && req.scratch.Some?
    modifies req`scratch, log`infos, log`traceModeNotices
    ensures LegacyInv(req, res, log)
    ensures req.scratch == Some(old(req.scratch).value.(loggedTraceMode := true, loggedRequestInfo := true))
    ensures log.infos == old(log.infos)
                         + (if old(req.scratch).value.loggedRequestInfo then []
                            else [RequestInfo(SummarizeRequest.SummarizeRequest(req.data))])
  {
    if !req.scratch.value.loggedTraceMode {
      req.scratch := Some(req.scratch.value.(loggedTraceMode := true));
      log.traceModeNotices := log.traceModeNotices + 1;
    }
    if !req.scratch.value.loggedRequestInfo {
      req.scratch := Some(req.scratch.value.(loggedRequestInfo := true));
      log.infos := log.infos + [RequestInfo(SummarizeRequest.SummarizeRequest(req.data))];
    }
  }

  /** One invocation of the older wrapper on a request and a response. */
  method Invoke(w: LegacyWrapped, params: seq<Value>, req: Request, res: Response, log: Log, env: Env)
    returns (calls: seq<Call>)
    requires LegacyInv(req, res, log)
    modifies req`locals, req`scratch, res`hasLocals, res`scratch, res`json, res`listeners, res`statusCode,
             res`slots, res`sent, res`decorations, res`headers, log`infos, log`traceModeNotices, log`warnings
    ensures LegacyInv(req, res, log) && res.scratch.Some?
    ensures calls == LegacyPlan(w, params).calls
    ensures res.sent == old(res.sent) + LegacyBodies(w, params)
    ensures res.statusCode == ProjectHandlerModule.FinalStatus(old(res.statusCode), LegacyPlan(w, params))
    ensures req.scratch == Some(old(req.scratch).GetOr(FreshReqScratch).(loggedTraceMode := true, loggedRequestInfo := true))
    ensures log.infos == old(log.infos)
                         + (if ProjectHandlerModule.FirstOnRequest(old(req.scratch))
                            then [RequestInfo(SummarizeRequest.SummarizeRequest(req.data))] else [])
    ensures res.json == LegacyHook(w.name, w.version, |old(res.slots)|, old(res.json))
    ensures res.listeners == old(res.listeners) + [LegacyFinish(|old(res.slots)|)]
    ensures res.Decorated() == (old(res.Decorated()) || |LegacyBodies(w, params)| > 0)
    ensures old(res.Decorated()) || |LegacyBodies(w, params)| == 0 ==>
      res.slots == old(res.slots) + [None] && res.decorations == old(res.decorations)
      && res.headers == old(res.headers) && log.warnings == old(log.warnings)
    ensures !old(res.Decorated()) && |LegacyBodies(w, params)| > 0 ==>
      res.slots == old(res.slots) + [Some(LegacyBodies(w, params)[0])]
      && res.decorations == old(res.decorations) + [Decoration(None, w.version)]
      && res.headers == LegacyHeaders(old(res.headers), res.canGetSet, res.canSetHeader, w.version, env)
      && log.warnings == old(log.warnings) + LegacyWarnings(res.canGetSet, res.canSetHeader, w.version, env)
  {
    Prepare(w, req, res, log);
    calls := Run(w, params, req, res, log, env);
  }

  /** A fresh request, a fresh framework response that can set headers,
      and an empty log: the invariant holds and no wrapper has run. */
  method Start(data: RequestData, headers: map<string, string>) returns (req: Request, res: Response, log: Log)
    ensures fresh(req) && fresh(res) && fresh(log)
    ensures LegacyInv(req, res, log) && req.scratch.None? && res.scratch.None?
    ensures req.data == data && res.headers == headers && res.statusCode == 200 && res.statusMessage == Undefined
    ensures res.canGetSet && res.canSetHeader && res.slots == [] && res.sent == [] && res.listeners == []
    ensures log.infos == [] && log.warnings == []
  {
    req := new Request(data);
    res := new Response(headers, true, true);
    log := new Log();
  }

  /** One invocation on a fresh request and a fresh framework response. */
  method StartAndInvoke(w: LegacyWrapped, params: seq<Value>, data: RequestData, headers: map<string, string>, env: Env)
    returns (req: Request, res: Response, log: Log)
    ensures fresh(req) && fresh(res) && fresh(log)
    ensures req.data == data && res.statusMessage == Undefined
    ensures req.scratch.Some? && req.scratch.value.loggedRequestInfo && !req.scratch.value.loggedResponseInfo
    ensures log.infos == [RequestInfo(SummarizeRequest.SummarizeRequest(data))]
    ensures res.sent == LegacyBodies(w, params)
    ensures res.statusCode == ProjectHandlerModule.FinalStatus(200, LegacyPlan(w, params))
    ensures res.listeners == [LegacyFinish(0)]
    ensures LegacyBodies(w, params) != [] ==>
      res.headers == LegacyHeaders(headers, true, true, w.version, env)
      && FinishBody(LegacyFinish(0), res) == LegacyBodies(w, params)[0]
  {
    req, res, log := Start(data, headers);
    assert !res.Decorated() && res.slots == [];
    var _ := Invoke(w, params, req, res, log, env);
  }

  /** The `finish` event once the request is logged and the response not
      yet: the first listener logs the response summary with the body in
      its own closure slot. */
  method Finish(req: Request, res: Response, log: Log) returns (infos: seq<Info>)
    requires |res.listeners| > 0 && res.listeners[0].LegacyFinish?
    requires req.scratch.Some? && req.scratch.value.loggedRequestInfo && !req.scratch.value.loggedResponseInfo
    requires log.infos == [RequestInfo(SummarizeRequest.SummarizeRequest(req.data))]
    modifies req`scratch, log`infos
    ensures infos == log.infos
    ensures infos == [RequestInfo(SummarizeRequest.SummarizeRequest(req.data)),
                      ResponseInfo(SummarizeResponse.SummarizeResponse(
                        res.headers, res.statusCode, res.statusMessage, map["body" := FinishBody(res.listeners[0], res)]))]
  {
    EmitFinish(req, res, log);
    infos := log.infos;
  }

  /** One older wrapper on a fresh request and a fresh framework response
      that can set headers, after which the response finishes: the
      framework receives the invocation's bodies, the decorator runs once
      with the wrapper's version, and the `{ req }` and `{ res }` summaries
      are logged once each, the latter with the first body sent. */
  method ServeOnce(w: LegacyWrapped, params: seq<Value>, data: RequestData, headers: map<string, string>, env: Env)
    returns (status: int, sent: seq<Value>, finalHeaders: map<string, string>, infos: seq<Info>)
    requires LegacyBodies(w, params) != []
    ensures sent == LegacyBodies(w, params)
    ensures status == ProjectHandlerModule.FinalStatus(200, LegacyPlan(w, params))
    ensures finalHeaders == LegacyHeaders(headers, true, true, w.version, env)
    ensures infos == [RequestInfo(SummarizeRequest.SummarizeRequest(data)),
                      ResponseInfo(SummarizeResponse.SummarizeResponse(finalHeaders, status, Undefined, map["body" := sent[0]]))]
  {
    var req, res, log := StartAndInvoke(w, params, data, headers, env);
    status, sent, finalHeaders := res.statusCode, res.sent, res.headers;
    infos := Finish(req, res, log);
  }

  // ----- Two consequences of the closure variable and the decorator argument -----

  /** Two older wrappers chained on one fresh request and one fresh
      framework response, where only the second sends a body: each hook
      keeps its captured body in its own closure variable, the second hook
      (outermost) captures it, but the `finish` listener that logs is the
      first one, whose variable was never set. The framework receives the
      body, and the response log reports it as undefined. */
  method ChainedBodyLost(first: LegacyWrapped, second: LegacyWrapped, params: seq<Value>,
                         data: RequestData, headers: map<string, string>, env: Env, body: Value)
    returns (infos: seq<Info>, sent: seq<Value>, finalHeaders: map<string, string>, status: int)
    requires LegacyBodies(first, params) == [] && LegacyBodies(second, params) == [body]
    ensures sent == [body]
    ensures infos == [RequestInfo(SummarizeRequest.SummarizeRequest(data)),
                      ResponseInfo(SummarizeResponse.SummarizeResponse(finalHeaders, status, Undefined, map["body" := Undefined]))]
  {
    var req, res, log := Start(data, headers);
    InvokeBoth(first, second, params, req, res, log, env, body);
    assert FinishBody(res.listeners[0], res) == Undefined;
    infos := Finish(req, res, log);
    sent, finalHeaders, status := res.sent, res.headers, res.statusCode;
  }

  /** The two invocations of `ChainedBodyLost`, on a request and a
      response no wrapper has touched yet. */
  method InvokeBoth(first: LegacyWrapped, second: LegacyWrapped, params: seq<Value>,
                    req: Request, res: Response, log: Log, env: Env, body: Value)
    requires LegacyBodies(first, params) == [] && LegacyBodies(second, params) == [body]
    requires LegacyInv(req, res, log) && req.scratch.None? && res.scratch.None?
    modifies req`locals, req`scratch, res`hasLocals, res`scratch, res`json, res`listeners, res`statusCode,
             res`slots, res`sent, res`decorations, res`headers, log`infos, log`traceModeNotices, log`warnings
    ensures req.scratch.Some? && req.scratch.value.loggedRequestInfo && !req.scratch.value.loggedResponseInfo
    ensures log.infos == [RequestInfo(SummarizeRequest.SummarizeRequest(req.data))]
    ensures res.sent == [body] && res.slots == [None, Some(body)]
    ensures res.listeners == [LegacyFinish(0), LegacyFinish(1)]
  {
    var _ := Invoke(first, params, req, res, log, env);
    assert res.slots == [None] && res.listeners == [LegacyFinish(0)];
    assert res.sent == [] && !res.Decorated();
    var _ := Invoke(second, params, req, res, log, env);
    assert res.slots == [None] + [Some(body)];
  }

  /** One older wrapper with a name, on a fresh request and a fresh
      framework response that can set headers: the decorator runs, yet no
      `X-Project-Handler` header appears, because the hook passes the name
      under `name`, which the decorator does not read. */
  method HandlerHeaderNeverSet(w: LegacyWrapped, params: seq<Value>, data: RequestData,
                               headers: map<string, string>, env: Env)
    returns (decorations: seq<Decoration>, finalHeaders: map<string, string>)
    requires Truthy(w.name) && LegacyBodies(w, params) != [] && HandlerHeader !in headers
    ensures decorations == [Decoration(None, w.version)]
    ensures finalHeaders == LegacyHeaders(headers, true, true, w.version, env)
    ensures HandlerHeader !in finalHeaders
  {
    var req := new Request(data);
    var res := new Response(headers, true, true);
    var log := new Log();
    var _ := Invoke(w, params, req, res, log, env);
    decorations, finalHeaders := res.decorations, res.headers;
    ProjectHeaderRule(headers, "", w.version.GetOr(""), env, HandlerHeader);
  }

  /** The decorator argument the newer hook passes, `{ handler: name,
      version }`, makes the decorator set `X-Project-Handler` to the
      wrapper's name on a response that can set headers. */
  lemma NamedDecorationSetsHandlerHeader(h: map<string, string>, name: string, version: Option<string>, env: Env)
    requires name != ""
    ensures var d := DecorationOf(ModuleHook(Some(name), version, Native));
      var r := DecoratedHeaders(h, true, true, d.handler.GetOr(""), d.version.GetOr(""), env);
      HandlerHeader in r && r[HandlerHeader] == name
  {
    ProjectHeaderRule(h, name, version.GetOr(""), env, HandlerHeader);
  }
}
