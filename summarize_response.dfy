/** `summarizeResponse` (the utility the pipeline logs with): the response's
    headers, status code and status message, with `extras` spread over them. */
module SummarizeResponse {
  import opened Values

  const BaseKeys: set<string> := {"headers", "statusCode", "statusMessage"}

  function Base(headers: map<string, string>, statusCode: int, statusMessage: Value): map<string, Value> {
    map["headers" := HeadersValue(headers), "statusCode" := Num(statusCode), "statusMessage" := statusMessage]
  }

  /** `{ headers: res.getHeaders(), statusCode, statusMessage, ...extras }`. */
  function SummarizeResponse(headers: map<string, string>, statusCode: int, statusMessage: Value,
                             extras: map<string, Value>): (r: Value)
    ensures r.Obj? && r.fields.Keys == BaseKeys + extras.Keys
    ensures forall k :: k in extras ==> r.fields[k] == extras[k]
    ensures "headers" !in extras ==> r.fields["headers"] == HeadersValue(headers)
    ensures "statusCode" !in extras ==> r.fields["statusCode"] == Num(statusCode)
    ensures "statusMessage" !in extras ==> r.fields["statusMessage"] == statusMessage
  {
    Obj(Base(headers, statusCode, statusMessage) + extras)
  }

  /** Reporting a captured body adds exactly the `body` key and leaves the
      base summary as it is. */
  lemma BodyExtraOnlyAddsBody(headers: map<string, string>, statusCode: int, statusMessage: Value, body: Value)
    ensures SummarizeResponse(headers, statusCode, statusMessage, map["body" := body]).fields["body"] == body
    ensures SummarizeResponse(headers, statusCode, statusMessage, map["body" := body]).fields - {"body"}
         == SummarizeResponse(headers, statusCode, statusMessage, map[]).fields
  {
    var withBody := SummarizeResponse(headers, statusCode, statusMessage, map["body" := body]).fields;
    var without := SummarizeResponse(headers, statusCode, statusMessage, map[]).fields;
    assert (withBody - {"body"}).Keys == without.Keys;
  }
}
