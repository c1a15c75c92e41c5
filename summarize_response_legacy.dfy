/** The older `summarizeResponse` function: a fixed five-key projection of a
    response, including the constant `taco: "hi"`. */
module LegacySummarizeResponse {
  import opened Values

  /** The response fields the projection reads (`undefined` when absent). */
  datatype ResponseFields = ResponseFields(body: Value, locals: Value, statusCode: Value, statusMessage: Value)

  const LegacyKeys: set<string> := {"body", "taco", "locals", "statusCode", "statusMessage"}

  function SummarizeResponse(res: ResponseFields): (r: Value)
    ensures r.Obj? && r.fields.Keys == LegacyKeys
    ensures r.fields["taco"] == Str("hi")
  {
    Obj(map[
      "body" := res.body,
      "taco" := Str("hi"),
      "locals" := res.locals,
      "statusCode" := res.statusCode,
      "statusMessage" := res.statusMessage])
  }

  function FieldsOfSummary(v: Value): Option<ResponseFields> {
    if v.Obj? && LegacyKeys <= v.fields.Keys then
      Some(ResponseFields(v.fields["body"], v.fields["locals"], v.fields["statusCode"], v.fields["statusMessage"]))
    else None
  }

  /** Body, locals, status code and status message are copied unchanged. */
  lemma LegacySummaryRoundTrip(res: ResponseFields)
    ensures FieldsOfSummary(SummarizeResponse(res)) == Some(res)
  {
  }
}
