/** What happens when something calls `res.json(body)` on a response whose
    `json` one or more wrapped handlers have replaced, and what the `finish`
    listeners they registered log. Shared by both wrappers. */
module ResponseHooks {
  import opened Values
  import opened Env
  import opened Http
  import opened DecorateResponse
  import opened SummarizeResponse

  /** The state a hook chain needs to run: every hook finds the response's
      scratch record, the newer hook finds the `originalJson` it forwards to,
      and every older hook owns an existing closure slot. */
  predicate HookReady(impl: JsonImpl, hasScratch: bool, saved: Option<JsonImpl>, slotCount: nat)
    decreases impl
  {
    match impl
    case Native => true
    case ModuleHook(_, _, original) =>
      hasScratch && saved == Some(original) && HookReady(original, hasScratch, saved, slotCount)
    case LegacyHook(_, _, slot, original) =>
      hasScratch && slot < slotCount && HookReady(original, hasScratch, saved, slotCount)
  }

  /** More closure slots never make a ready chain unready. */
  lemma {:induction false} ReadyWithMoreSlots(impl: JsonImpl, hasScratch: bool, saved: Option<JsonImpl>, n: nat, m: nat)
    requires n <= m && HookReady(impl, hasScratch, saved, n)
    ensures HookReady(impl, hasScratch, saved, m)
    decreases impl
  {
    match impl
    case Native =>
    case ModuleHook(_, _, original) => ReadyWithMoreSlots(original, hasScratch, saved, n, m);
    case LegacyHook(_, _, _, original) => ReadyWithMoreSlots(original, hasScratch, saved, n, m);
  }

  /** `res.locals._projectHandler.originalJson`, if there is one. */
  function SavedJson(res: Response): Option<JsonImpl>
    reads res
  {
    if res.scratch.Some? then res.scratch.value.originalJson else None
  }

  predicate Ready(impl: JsonImpl, res: Response)
    reads res
  {
    HookReady(impl, res.scratch.Some?, SavedJson(res), |res.slots|)
  }

  /** The decorator argument a hook passes. The older hook passes
      `{ name, version }`; the decorator reads only `handler` and `version`,
      so it sees no handler. */
  function DecorationOf(impl: JsonImpl): Decoration
    requires !impl.Native?
  {
    match impl
    case ModuleHook(handler, version, _) => Decoration(handler, version)
    case LegacyHook(_, version, _, _) => Decoration(None, version)
  }

  /** `res.json(body)` through the hook chain `impl`. The first hook to find
      the response undecorated captures the body and decorates; every hook
      forwards the body unchanged; the framework's serialiser receives it
      exactly once. */
  method Dispatch(impl: JsonImpl, res: Response, log: Log, env: Env, body: Value)
    requires Ready(impl, res)
    modifies res`scratch, res`slots, res`sent, res`decorations, res`headers, log`warnings
    decreases impl
    ensures res.sent == old(res.sent) + [body]
    ensures |res.slots| == |old(res.slots)|
    ensures res.scratch.Some? == old(res.scratch).Some?
    ensures res.scratch.Some? ==> res.scratch.value.originalJson == old(res.scratch).value.originalJson
    ensures res.scratch.Some? ==> res.scratch.value.decoratedResponse == (old(res.Decorated()) || !impl.Native?)
    ensures impl.Native? || old(res.Decorated()) ==>
      res.scratch == old(res.scratch) && res.slots == old(res.slots) && res.decorations == old(res.decorations)
      && res.headers == old(res.headers) && log.warnings == old(log.warnings)
    ensures !impl.Native? && !old(res.Decorated()) ==>
      res.decorations == old(res.decorations) + [DecorationOf(impl)]
    ensures impl.ModuleHook? && !old(res.Decorated()) ==>
      res.scratch.value.logResponseBodyJson == Some(body) && res.slots == old(res.slots)
      && res.headers == old(res.headers) && log.warnings == old(log.warnings)
    ensures impl.LegacyHook? && !old(res.Decorated()) ==>
      res.scratch.value.logResponseBodyJson == old(res.scratch).value.logResponseBodyJson
      && res.slots == old(res.slots)[impl.slot := Some(body)]
      && res.headers == DecoratedHeaders(old(res.headers), res.canGetSet, res.canSetHeader, "", impl.version.GetOr(""), env)
      && log.warnings == old(log.warnings)
         + (if Throws(res.canGetSet, res.canSetHeader, "", impl.version.GetOr(""), env) then [CaughtWarning] else [])
  {
    match impl
    case Native =>
      res.sent := res.sent + [body];
    case ModuleHook(handler, version, original) =>
      if !res.scratch.value.decoratedResponse {
        res.scratch := Some(res.scratch.value.(logResponseBodyJson := Some(body), decoratedResponse := true));
        // The newer wrapper's decorator is recorded, not interpreted.
        res.decorations := res.decorations + [Decoration(handler, version)];
      }
      Dispatch(res.scratch.value.originalJson.value, res, log, env, body);
    case LegacyHook(_, version, slot, original) =>
      if !res.scratch.value.decoratedResponse {
        res.slots := res.slots[slot := Some(body)];
        res.scratch := Some(res.scratch.value.(decoratedResponse := true));
        res.decorations := res.decorations + [Decoration(None, version)];
        Decorate(res, "", version.GetOr(""), env, log);
      }
      Dispatch(original, res, log, env, body);
  }

  /** The body a finish listener reports: the newer wrapper reads the
      response's scratch record, the older one its own closure slot. */
  function FinishBody(l: Listener, res: Response): Value
    reads res
  {
    match l
    case ModuleFinish =>
      if res.scratch.Some? && res.scratch.value.logResponseBodyJson.Some?
      then res.scratch.value.logResponseBodyJson.value else Undefined
    case LegacyFinish(slot) =>
      if slot < |res.slots| && res.slots[slot].Some? then res.slots[slot].value else Undefined
  }

  function ResponseSummary(res: Response, body: Value): Value
    reads res
  {
    SummarizeResponse.SummarizeResponse(res.headers, res.statusCode, res.statusMessage, map["body" := body])
  }

  /** The `finish` event: every registered listener runs in registration
      order; only the first finds `loggedResponseInfo` unset, so the `{ res }`
      summary is logged at most once, with the first listener's body. */
  method EmitFinish(req: Request, res: Response, log: Log)
    requires |res.listeners| > 0 ==> req.scratch.Some?
    modifies req`scratch, log`infos
    ensures |res.listeners| == 0 || old(req.scratch).value.loggedResponseInfo ==>
      req.scratch == old(req.scratch) && log.infos == old(log.infos)
    ensures |res.listeners| > 0 && !old(req.scratch).value.loggedResponseInfo ==>
      req.scratch == Some(old(req.scratch).value.(loggedResponseInfo := true))
      && log.infos == old(log.infos) + [ResponseInfo(ResponseSummary(res, FinishBody(res.listeners[0], res)))]
  {
    var i := 0;
    while i < |res.listeners|
      invariant 0 <= i <= |res.listeners|
      invariant i == 0 ==> req.scratch == old(req.scratch) && log.infos == old(log.infos)
      invariant i > 0 && old(req.scratch).value.loggedResponseInfo ==>
        req.scratch == old(req.scratch) && log.infos == old(log.infos)
      invariant i > 0 && !old(req.scratch).value.loggedResponseInfo ==>
        req.scratch == Some(old(req.scratch).value.(loggedResponseInfo := true))
        && log.infos == old(log.infos) + [ResponseInfo(ResponseSummary(res, FinishBody(res.listeners[0], res)))]
    {
      if !req.scratch.value.loggedResponseInfo {
        req.scratch := Some(req.scratch.value.(loggedResponseInfo := true));
        log.infos := log.infos + [ResponseInfo(ResponseSummary(res, FinishBody(res.listeners[i], res)))];
      }
      i := i + 1;
    }
  }
}
