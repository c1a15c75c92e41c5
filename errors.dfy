/** The error taxonomy the wrapper consumes. The errors library itself is not
    part of this model: each project error is a variant with a fixed HTTP
    status (section 15 of RFC 9110) and a JSON:API-style body. A thrown value
    is a project error (`isProjectError` is true), `null` or `undefined`, or
    anything else. */
module Errors {
  import opened Values
  import opened JsonApiError

  datatype ProjectError =
    | BadRequest
    | Unauthorized
    | Forbidden
    | NotFound
    | Gone
    | Teapot
    | Internal
    | BadGateway
    | Unavailable
    | GatewayTimeout
    | Unhandled
    | Multi(errors: seq<ProjectError>)

  /** What a handler, a step or the wrapper itself can throw. `Nullish` is
      `throw null`, `throw undefined` or `Promise.reject()`. */
  datatype Thrown = Project(error: ProjectError) | Nullish | Other(message: string) {
    predicate IsProjectError() { Project? }
  }

  /** The `TypeError` that reading `error.isProjectError` raises when the
      caught value is `null` or `undefined`: an ordinary error, not a
      project error. */
  const PropertyReadError := Other("TypeError: Cannot read properties of undefined (reading 'isProjectError')")

  /** The status a project error declares. A `MultiError` takes the status of
      its first error (500 when it wraps none). */
  function Status(e: ProjectError): int
    decreases e
  {
    match e
    case BadRequest => 400
    case Unauthorized => 401
    case Forbidden => 403
    case NotFound => 404
    case Gone => 410
    case Teapot => 418
    case Internal => 500
    case BadGateway => 502
    case Unavailable => 503
    case GatewayTimeout => 504
    case Unhandled => 500
    case Multi(es) => if |es| > 0 then Status(es[0]) else 500
  }

  function Title(e: ProjectError): string {
    match e
    case BadRequest => "Bad Request"
    case Unauthorized => "Unauthorized"
    case Forbidden => "Forbidden"
    case NotFound => "Not Found"
    case Gone => "Gone"
    case Teapot => "Teapot"
    case Internal => "Internal Error"
    case BadGateway => "Bad Gateway"
    case Unavailable => "Service Unavailable"
    case GatewayTimeout => "Gateway Timeout"
    case Unhandled => "Internal Application Error"
    case Multi(_) => "Multiple Errors"
  }

  /** The entries of `errors` in the error's JSON body: one for a simple
      error, every wrapped error's entries in order for a `MultiError`. */
  function Items(e: ProjectError): seq<ErrorItem>
    decreases e
  {
    match e
    case Multi(es) => AllItems(es)
    case _ => [ErrorItem(Status(e), Title(e), None)]
  }

  function AllItems(es: seq<ProjectError>): seq<ErrorItem>
    decreases es
  {
    if es == [] then [] else Items(es[0]) + AllItems(es[1..])
  }

  /** `error.json()`. */
  function Json(e: ProjectError): Value {
    Render(Items(e))
  }

  /** Every `MultiError` inside wraps at least one error. */
  predicate Proper(e: ProjectError)
    decreases e
  {
    match e
    case Multi(es) => |es| > 0 && forall i :: 0 <= i < |es| ==> Proper(es[i])
    case _ => true
  }

  /** How a caught value joins the list of runtime errors: project errors as
      they are, anything else as a generic `UnhandledError`. For `null` and
      `undefined` this is the intended reading (`error?.isProjectError`);
      `CatchAsWritten` gives the code as written. */
  function Classify(t: Thrown): (e: ProjectError)
    ensures t.IsProjectError() ==> e == t.error
    ensures !t.IsProjectError() ==> e == Unhandled
  {
    match t
    case Project(e) => e
    case _ => Unhandled
  }

  /** An inner catch as written: `if (error.isProjectError)` classifies
      the caught value, except that for `null` and `undefined` the property
      read itself throws, and that `TypeError` (`PropertyReadError`) leaves
      the catch block: then there is no classified error. */
  function CatchAsWritten(t: Thrown): (r: Option<ProjectError>)
    ensures r.None? <==> t.Nullish?
    ensures r.Some? ==> r.value == Classify(t)
  {
    if t.Nullish? then None else Some(Classify(t))
  }

  datatype Reply = Reply(status: int, body: Value)

  /** The outer catch: `res.status(error.status).json(error.json())` for a
      project error, the same for a fresh `UnhandledError` otherwise. */
  function ErrorReply(t: Thrown): (r: Reply)
    ensures r.status == Status(Classify(t))
    ensures r.body == Json(Classify(t))
    ensures IsErrorBody(r.body)
    ensures !t.IsProjectError() ==> r.status == 500
  {
    RenderIsErrorBody(Items(Classify(t)));
    Reply(Status(Classify(t)), Json(Classify(t)))
  }

  /** The outer catch as written: the same reply, except that for `null`
      and `undefined` the property read throws out of the catch block, so
      the wrapper itself throws (or its promise rejects) and nothing is
      sent. */
  function OuterCatchAsWritten(t: Thrown): (r: Option<Reply>)
    ensures r.None? <==> t.Nullish?
    ensures r.Some? ==> r.value == ErrorReply(t)
  {
    if t.Nullish? then None else Some(ErrorReply(t))
  }

  /** The final decision over the accumulated runtime errors. */
  function Decide(errs: seq<ProjectError>): (d: Option<ProjectError>)
    ensures d.None? <==> errs == []
    ensures |errs| == 1 ==> d == Some(errs[0])
    ensures |errs| > 1 ==> d == Some(Multi(errs))
  {
    if |errs| > 1 then Some(Multi(errs))
    else if |errs| == 1 then Some(errs[0])
    else None
  }

  /** A proper error's body is never empty, and its first entry carries the
      error's own status: the HTTP status mirrors `errors[0].status`. */
  lemma {:induction false} FirstItemCarriesStatus(e: ProjectError)
    requires Proper(e)
    ensures |Items(e)| > 0 && Items(e)[0].status == Status(e)
    decreases e
  {
    match e
    case Multi(es) =>
      assert Proper(es[0]);
      FirstItemCarriesStatus(es[0]);
      assert AllItems(es) == Items(es[0]) + AllItems(es[1..]);
    case _ =>
  }

  /** The response to any thrown value has a schema-valid body whose first
      entry's status is the response status, whenever a project error is proper. */
  lemma ReplyStatusMirrorsBody(t: Thrown)
    requires t.IsProjectError() ==> Proper(t.error)
    ensures IsErrorBody(ErrorReply(t).body)
    ensures |ErrorReply(t).body.fields["errors"].items| > 0
    ensures ErrorReply(t).body.fields["errors"].items[0].fields["status"] == Num(ErrorReply(t).status)
  {
    var e := Classify(t);
    FirstItemCarriesStatus(e);
    RenderItemsAt(Items(e), 0);
  }

  lemma {:induction false} AllItemsAppend(xs: seq<ProjectError>, ys: seq<ProjectError>)
    ensures AllItems(xs + ys) == AllItems(xs) + AllItems(ys)
  {
    if xs == [] {
      assert xs + ys == ys;
    } else {
      assert (xs + ys)[0] == xs[0] && (xs + ys)[1..] == xs[1..] + ys;
      AllItemsAppend(xs[1..], ys);
    }
  }

  /** No accumulated error is lost: the decided error's body lists the entries
      of every runtime error, in order, and its status is the first error's. */
  lemma DecideKeepsEveryError(errs: seq<ProjectError>)
    requires errs != []
    ensures Items(Decide(errs).value) == AllItems(errs)
    ensures Status(Decide(errs).value) == Status(errs[0])
  {
    if |errs| == 1 {
      assert AllItems(errs) == Items(errs[0]) + AllItems([]);
    }
  }

  /** The decision over proper errors is proper. */
  lemma DecideProper(errs: seq<ProjectError>)
    requires forall i :: 0 <= i < |errs| ==> Proper(errs[i])
    ensures Decide(errs).Some? ==> Proper(Decide(errs).value)
  {
  }
}
