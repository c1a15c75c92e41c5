/** The JSON:API-style error body every error response carries: an object
    whose `errors` member is an array of objects, each with a numeric
    `status`, a string `title` and, optionally, a string `detail`. */
module JsonApiError {
  import opened Values

  datatype ErrorItem = ErrorItem(status: int, title: string, detail: Option<string>)

  /** One element of `errors`: `status` and `title` required, `detail` a string when present. */
  predicate IsErrorObject(v: Value) {
    && v.Obj?
    && "status" in v.fields && v.fields["status"].Num?
    && "title" in v.fields && v.fields["title"].Str?
    && ("detail" in v.fields ==> v.fields["detail"].Str?)
  }

  /** The schema: an object that must contain `errors`, an array of error objects. */
  predicate IsErrorBody(v: Value) {
    && v.Obj?
    && "errors" in v.fields
    && v.fields["errors"].Arr?
    && forall i :: 0 <= i < |v.fields["errors"].items| ==> IsErrorObject(v.fields["errors"].items[i])
  }

  function RenderItem(e: ErrorItem): Value {
    var base := map["status" := Num(e.status), "title" := Str(e.title)];
    match e.detail
    case None => Obj(base)
    case Some(d) => Obj(base["detail" := Str(d)])
  }

  function RenderItems(es: seq<ErrorItem>): (vs: seq<Value>)
    ensures |vs| == |es|
  {
    if es == [] then [] else [RenderItem(es[0])] + RenderItems(es[1..])
  }

  /** The body `{ errors: [...] }` for a list of error items. */
  function Render(es: seq<ErrorItem>): Value {
    Obj(map["errors" := Arr(RenderItems(es))])
  }

  function ParseItem(v: Value): Option<ErrorItem> {
    if !IsErrorObject(v) then None
    else
      var detail := if "detail" in v.fields then Some(v.fields["detail"].s) else None;
      Some(ErrorItem(v.fields["status"].n, v.fields["title"].s, detail))
  }

  function ParseItems(vs: seq<Value>): Option<seq<ErrorItem>> {
    if vs == [] then Some([])
    else
      match (ParseItem(vs[0]), ParseItems(vs[1..]))
      case (Some(e), Some(rest)) => Some([e] + rest)
      case _ => None
  }

  /** Reads an error body back into error items; `None` when the schema rejects it. */
  function Parse(v: Value): Option<seq<ErrorItem>> {
    if v.Obj? && "errors" in v.fields && v.fields["errors"].Arr? then ParseItems(v.fields["errors"].items)
    else None
  }

  lemma {:induction false} RenderItemsAt(es: seq<ErrorItem>, i: nat)
    requires i < |es|
    ensures RenderItems(es)[i] == RenderItem(es[i])
  {
    if i > 0 {
      RenderItemsAt(es[1..], i - 1);
    }
  }

  /** Every rendered body satisfies the schema. */
  lemma RenderIsErrorBody(es: seq<ErrorItem>)
    ensures IsErrorBody(Render(es))
  {
    forall i | 0 <= i < |es| ensures IsErrorObject(RenderItems(es)[i]) {
      RenderItemsAt(es, i);
    }
  }

  /** Reading a rendered body gives back exactly the items it was rendered from. */
  lemma {:induction false} ParseRender(es: seq<ErrorItem>)
    ensures Parse(Render(es)) == Some(es)
  {
    ParseRenderItems(es);
  }

  lemma {:induction false} ParseRenderItems(es: seq<ErrorItem>)
    ensures ParseItems(RenderItems(es)) == Some(es)
  {
    if es != [] {
      var e := es[0];
      assert ParseItem(RenderItem(e)) == Some(e);
      ParseRenderItems(es[1..]);
      var vs := RenderItems(es);
      assert vs == [RenderItem(e)] + RenderItems(es[1..]);
      assert vs[0] == RenderItem(e) && vs[1..] == RenderItems(es[1..]);
      assert ParseItems(vs) == Some([e] + es[1..]);
      assert [e] + es[1..] == es;
    }
  }

  /** The schema holds exactly of the bodies that parse. */
  lemma {:induction false} SchemaIffParses(v: Value)
    ensures IsErrorBody(v) <==> Parse(v).Some?
  {
    if v.Obj? && "errors" in v.fields && v.fields["errors"].Arr? {
      ParseItemsIff(v.fields["errors"].items);
    }
  }

  lemma {:induction false} ParseItemsIff(vs: seq<Value>)
    ensures (forall i :: 0 <= i < |vs| ==> IsErrorObject(vs[i])) <==> ParseItems(vs).Some?
  {
    if vs != [] {
      ParseItemsIff(vs[1..]);
      assert forall i :: 1 <= i < |vs| ==> vs[i] == vs[1..][i - 1];
    }
  }
}
