/** `httpRoute(statusCode, context)`: a ready-made handler, wrapped by the
    older `projectHandler`, that answers every request with a fixed status
    and a small JSON body naming that status. */
module HttpRoute {
  import opened Values
  import opened Env
  import opened Errors
  import opened SummarizeRequest
  import opened Http
  import opened DecorateResponse
  import opened ResponseHooks
  import opened Steps
  import opened ProjectHandlerFunction
  import ProjectHandlerModule

  const DefaultStatus := 200

  /** The status messages the route knows; any other code has none. */
  const StatusMessages: map<int, string> := map[
    200 := "OK",
    204 := "No Content",
    400 := "Bad Request",
    401 := "Unauthorized",
    403 := "Forbidden",
    404 := "Not Found",
    410 := "Gone",
    418 := "I'm a teapot",
    500 := "Internal Error",
    502 := "Bad Gateway",
    503 := "Unavailable",
    504 := "Gateway Timeout"]

  /** The message for a code, if the table has one. Every message is
      non-empty, so "no message" and "falsy message" coincide. */
  function StatusMessage(code: int): (m: Option<string>)
    ensures m.Some? <==> code in {200, 204, 400, 401, 403, 404, 410, 418, 500, 502, 503, 504}
    ensures m.Some? ==> m.value != ""
  {
    if code in StatusMessages then Some(StatusMessages[code]) else None
  }

  /** `{ res: { statusCode, statusMessage } }`; an unknown code leaves
      `statusMessage` undefined. */
  function RouteBody(code: int): Value
  {
    var message := StatusMessage(code);
    Obj(map["res" := Obj(map["statusCode" := Num(code),
                              "statusMessage" := if message.Some? then Str(message.value) else Undefined])])
  }

  /** The body names the configured code, and carries the table's message
      for it exactly when the table has one. */
  lemma RouteBodyNamesStatus(code: int)
    ensures var b := RouteBody(code);
      b.Obj? && b.fields.Keys == {"res"}
      && b.fields["res"].Obj? && b.fields["res"].fields.Keys == {"statusCode", "statusMessage"}
      && b.fields["res"].fields["statusCode"] == Num(code)
      && (code in StatusMessages <==> b.fields["res"].fields["statusMessage"].Str?)
      && (code in StatusMessages ==> b.fields["res"].fields["statusMessage"] == Str(StatusMessages[code]))
  {
    var b := RouteBody(code);
    assert b.fields.Keys == {"res"};
    assert b.fields["res"].fields.Keys == {"statusCode", "statusMessage"};
  }

  /** The handler: `res.status(statusCode).json(body)`. */
  function RouteAction(code: int): Action
  {
    Action("httpRoute", Some(code), Some(RouteBody(code)), Returned)
  }

  /** The route: the handler above, wrapped by the older `projectHandler`
      with `context` as its options, unchanged. The code defaults to 200;
      the handler is an anonymous arrow function. */
  function Route(statusCode: Option<int>, context: LegacyOptions, env: Env): LegacyWrapped
  {
    LegacyProjectHandler(Handler("", RouteAction(statusCode.GetOr(DefaultStatus))), context, env)
  }

  /** An available route sends exactly its body, once, with exactly the
      configured status (200 when none is given); an unavailable one sends
      the unavailable error instead. Whether it is unavailable is the
      context's `unavailable`, or the environment's default without one. */
  lemma RouteReplies(statusCode: Option<int>, context: LegacyOptions, env: Env, params: seq<Value>, code0: int)
    ensures var w := Route(statusCode, context, env);
      var code := statusCode.GetOr(DefaultStatus);
      w.unavailable == context.unavailable.GetOr(env.projectUnavailable)
      && (!w.unavailable ==>
         LegacyBodies(w, params) == [RouteBody(code)]
         && ProjectHandlerModule.FinalStatus(code0, LegacyPlan(w, params)) == code)
      && (w.unavailable ==>
         LegacyBodies(w, params) == [Json(Unavailable)]
         && ProjectHandlerModule.FinalStatus(code0, LegacyPlan(w, params)) == Status(Unavailable))
  {
    var w := Route(statusCode, context, env);
    if w.unavailable {
      LegacyUnavailableRunsNothing(w, params, code0);
    } else {
      HandlerBodies(w, params, code0);
    }
  }

  /** An available route on a fresh request and a fresh framework response:
      the client gets the configured status and the route body once, the
      powered-by header follows the decorator's rule, the headers are the
      decorator's with the context's version (or the environment's without
      one), and the response log reports the body that was sent. */
  method ServeRoute(statusCode: Option<int>, context: LegacyOptions, env: Env, params: seq<Value>,
                    data: RequestData, headers: map<string, string>)
    returns (status: int, sent: seq<Value>, finalHeaders: map<string, string>, infos: seq<Info>)
    requires !Route(statusCode, context, env).unavailable
    ensures status == statusCode.GetOr(DefaultStatus)
    ensures sent == [RouteBody(status)]
    ensures PoweredBy in finalHeaders
    ensures finalHeaders[PoweredBy] == (if PoweredByReplaceable(headers) then PoweredByValue else headers[PoweredBy])
    ensures finalHeaders == LegacyHeaders(headers, true, true,
                                          if context.version.Some? then context.version else env.projectVersion, env)
    ensures var version := if context.version.Some? then context.version else env.projectVersion;
      Truthy(version) ==> VersionHeader in finalHeaders && finalHeaders[VersionHeader] == version.value
    ensures infos == [RequestInfo(SummarizeRequest.SummarizeRequest(data)),
                      ResponseInfo(SummarizeResponse.SummarizeResponse(finalHeaders, status, Undefined, map["body" := RouteBody(status)]))]
  {
    var w := Route(statusCode, context, env);
    RouteReplies(statusCode, context, env, params, 200);
    status, sent, finalHeaders, infos := ServeOnce(w, params, data, headers, env);
    PoweredByRule(headers, true, "", w.version.GetOr(""), env);
  }
}
