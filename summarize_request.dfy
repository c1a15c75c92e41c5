/** `summarizeRequest`: the request fields worth logging, as a plain object. */
module SummarizeRequest {
  import opened Values

  /** The fields of an incoming request that the summary reads. A Buffer
      body is `Bytes`. */
  datatype RequestData = RequestData(
    baseUrl: Value, body: Value, headers: Value, httpMethod: Value, query: Value, url: Value)

  const SummaryKeys: set<string> := {"baseUrl", "body", "headers", "method", "query", "url"}

  function SummarizeRequest(req: RequestData): (r: Value)
    ensures r.Obj? && r.fields.Keys == SummaryKeys
    ensures r.fields["body"] == req.body
  {
    Obj(map[
      "baseUrl" := req.baseUrl,
      "body" := req.body,
      "headers" := req.headers,
      "method" := req.httpMethod,
      "query" := req.query,
      "url" := req.url])
  }

  /** Reads the request fields back out of a summary. */
  function RequestOfSummary(v: Value): Option<RequestData> {
    if v.Obj? && SummaryKeys <= v.fields.Keys then
      var f := v.fields;
      Some(RequestData(f["baseUrl"], f["body"], f["headers"], f["method"], f["query"], f["url"]))
    else None
  }

  /** The summary loses nothing: every field, the body included, comes back unchanged. */
  lemma SummaryRoundTrip(req: RequestData)
    ensures RequestOfSummary(SummarizeRequest(req)) == Some(req)
  {
  }

  /** Equal requests give equal summaries, and only equal requests do. */
  lemma SummaryDeterminesRequest(a: RequestData, b: RequestData)
    ensures SummarizeRequest(a) == SummarizeRequest(b) <==> a == b
  {
    SummaryRoundTrip(a);
    SummaryRoundTrip(b);
  }
}
