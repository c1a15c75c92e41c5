/** The request, the response and the logger as the wrapper mutates them.
    The scratch records stand for `req.locals._projectHandler` and
    `res.locals._projectHandler`; `json` is whatever `res.json` currently is. */
module Http {
  import opened Values
  import opened SummarizeRequest

  /** `req.locals._projectHandler`: the per-request idempotence flags (an
      absent flag reads as false). `loggedTraceMode` is used by the older
      wrapper, `initLogging` by the newer one. */
  datatype ReqScratch = ReqScratch(
    initLogging: bool, loggedTraceMode: bool, loggedRequestInfo: bool, loggedResponseInfo: bool)

  const FreshReqScratch := ReqScratch(false, false, false, false)

  /** What `res.json` is: the framework's own serialiser, the newer wrapper's
      hook (which forwards to the `originalJson` it saved), or the older
      wrapper's hook (which forwards to whatever `res.json` was when it was
      installed, and owns the closure slot `slot` for `responseJson`). */
  datatype JsonImpl =
    | Native
    | ModuleHook(handler: Option<string>, version: Option<string>, original: JsonImpl)
    | LegacyHook(name: Option<string>, version: Option<string>, slot: nat, original: JsonImpl)

  /** `res.locals._projectHandler`. */
  datatype ResScratch = ResScratch(
    originalJson: Option<JsonImpl>, decoratedResponse: bool, logResponseBodyJson: Option<Value>)

  const FreshResScratch := ResScratch(None, false, None)

  /** A `finish` listener registered by the newer wrapper, or by the older
      one (reading its own closure slot). */
  datatype Listener = ModuleFinish | LegacyFinish(slot: nat)

  /** The second argument of a call to the response decorator. */
  datatype Decoration = Decoration(handler: Option<string>, version: Option<string>)

  /** One `log.info.var` call: the single-key payload `{ req }` or `{ res }`. */
  datatype Info = RequestInfo(req: Value) | ResponseInfo(res: Value) {
    function Payload(): (v: Value)
      ensures v.Obj? && |v.fields| == 1
    {
      match this
      case RequestInfo(r) => Obj(map["req" := r])
      case ResponseInfo(r) => Obj(map["res" := r])
    }
  }

  class Request {
    const data: RequestData
    var locals: Option<map<string, Value>>   // req.locals, without the scratch key
    var scratch: Option<ReqScratch>           // req.locals._projectHandler

    constructor (data: RequestData)
      ensures this.data == data && locals.None? && scratch.None?
    {
      this.data := data;
      locals := None;
      scratch := None;
    }
  }

  class Response {
    var headers: map<string, string>
    const canGetSet: bool        // res.get / res.set exist
    const canSetHeader: bool     // res.setHeader exists
    var statusCode: int
    const statusMessage: Value
    var hasLocals: bool          // res.locals exists
    var scratch: Option<ResScratch>
    var json: JsonImpl
    var listeners: seq<Listener>
    var slots: seq<Option<Value>> // the older wrapper's `responseJson` closure variables
    var sent: seq<Value>          // bodies the framework's serialiser received, in order
    var decorations: seq<Decoration> // calls of the response decorator, in order

    constructor (headers: map<string, string>, canGetSet: bool, canSetHeader: bool)
      ensures this.headers == headers && this.canGetSet == canGetSet && this.canSetHeader == canSetHeader
      ensures statusCode == 200 && statusMessage == Undefined && !hasLocals && scratch.None?
      ensures json == Native && listeners == [] && slots == [] && sent == [] && decorations == []
    {
      this.headers := headers;
      this.canGetSet := canGetSet;
      this.canSetHeader := canSetHeader;
      statusCode := 200;
      statusMessage := Undefined;
      hasLocals := false;
      scratch := None;
      json := Native;
      listeners := [];
      slots := [];
      sent := [];
      decorations := [];
    }

    predicate Decorated()
      reads this
    {
      scratch.Some? && scratch.value.decoratedResponse
    }
  }

  class Log {
    var infos: seq<Info>                   // log.info.var calls
    var traceModeNotices: nat              // "Project logging in trace mode"
    var handlerTags: seq<Option<string>>   // logUtil.tag("handler", name)
    var warnings: seq<string>

    constructor ()
      ensures infos == [] && traceModeNotices == 0 && handlerTags == [] && warnings == []
    {
      infos := [];
      traceModeNotices := 0;
      handlerTags := [];
      warnings := [];
    }
  }
}
