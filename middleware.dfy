/**
 * The trace-id stamping of the HTTP middleware `_trace_logger`: after the
 * handler returns, the response's `X-Trace-Id` header is set to the trace id
 * the middleware derived from the same request headers. Logging, timing and
 * the 500 answer to an unhandled exception are not modelled.
 */
module TraceMiddleware {
  import opened Wrappers
  import opened TraceId
  import opened HealthProbes
  import opened SidecarConfig
  import opened Health

  /** `res.headers["X-Trace-Id"] = tid`: only the trace header changes. */
  function Stamp(resp: Response, tid: string): (r: Response)
    ensures r.status == resp.status && r.body == resp.body && r.traceHeader == tid
  {
    resp.(traceHeader := tid)
  }

  /**
   * `/health` as the code serves it: the handler and the middleware each call
   * `_trace(dict(req.headers))`, and each call draws its own `uuid4()`
   * (`handlerFreshId`, `middlewareFreshId`) when the request has no trace header.
   */
  function ServeHealthAsWritten(variant: Variant, cfg: Config, headers: map<string, string>,
                                handlerFreshId: string, middlewareFreshId: string, hostOutcomes: seq<HostOutcome>,
                                openaiReply: HttpOutcome, groqReply: HttpOutcome, timedOut: bool): (r: Response)
    requires |hostOutcomes| == |cfg.allowedHosts|
    ensures r.traceHeader == TraceOf(headers, None, middlewareFreshId)
    ensures r.body.Timeout? ==> r.body.traceId == TraceOf(headers, None, handlerFreshId)
    ensures r.status == HealthResponse(variant, cfg, hostOutcomes, openaiReply, groqReply, timedOut, "").status
  {
    Stamp(HealthResponse(variant, cfg, hostOutcomes, openaiReply, groqReply, timedOut, TraceOf(headers, None, handlerFreshId)),
          TraceOf(headers, None, middlewareFreshId))
  }

  /**
   * A request without a trace header that hits the deadline: the body's
   * `traceId` is the handler's fresh id, the `X-Trace-Id` header the
   * middleware's, and the two differ.
   */
  lemma TimeoutTraceMismatch()
    ensures var cfg := Config("agent0-lite", "phase1", 4040, [], [], [], 8, 2, 3, 5, "", "");
            var r := ServeHealthAsWritten(AgentLite, cfg, map[], "a", "b", [], Status(200), Status(200), true);
            r.body.Timeout? && r.body.traceId == "a" && r.traceHeader == "b"
  {
    var h: map<string, string> := map[];
    NoHeaderUsesFallback(h, None, "a");
    NoHeaderUsesFallback(h, None, "b");
  }

  /** When the request carries a trace header, the two calls agree and so do body and header. */
  lemma AsWrittenAgreesWithTraceHeader(variant: Variant, cfg: Config, headers: map<string, string>,
                                       f1: string, f2: string, hostOutcomes: seq<HostOutcome>,
                                       openaiReply: HttpOutcome, groqReply: HttpOutcome)
    requires |hostOutcomes| == |cfg.allowedHosts|
    requires exists k :: k in TraceKeys && Truthy(headers, k)
    ensures var r := ServeHealthAsWritten(variant, cfg, headers, f1, f2, hostOutcomes, openaiReply, groqReply, true);
            r.body.Timeout? && r.body.traceId == r.traceHeader
  {
    var k :| k in TraceKeys && Truthy(headers, k);
    var i :| 0 <= i < |TraceKeys| && TraceKeys[i] == k;
    assert FirstTruthy(headers, TraceKeys).Some?;
  }

  /**
   * `/health` with the trace id derived once per request and handed to the
   * handler, so that the handler's body and the middleware's header use the same id.
   */
  function ServeHealth(variant: Variant, cfg: Config, headers: map<string, string>, freshId: string,
                       hostOutcomes: seq<HostOutcome>, openaiReply: HttpOutcome, groqReply: HttpOutcome, timedOut: bool): (r: Response)
    requires |hostOutcomes| == |cfg.allowedHosts|
    ensures r == HealthResponse(variant, cfg, hostOutcomes, openaiReply, groqReply, timedOut, TraceOf(headers, None, freshId))
  {
    var tid := TraceOf(headers, None, freshId);
    Stamp(HealthResponse(variant, cfg, hostOutcomes, openaiReply, groqReply, timedOut, tid), tid)
  }

  /** Served this way, a timeout body always names the trace id sent back in `X-Trace-Id`. */
  lemma ServedTraceAgrees(variant: Variant, cfg: Config, headers: map<string, string>, freshId: string,
                          hostOutcomes: seq<HostOutcome>, openaiReply: HttpOutcome, groqReply: HttpOutcome, timedOut: bool)
    requires |hostOutcomes| == |cfg.allowedHosts|
    ensures var r := ServeHealth(variant, cfg, headers, freshId, hostOutcomes, openaiReply, groqReply, timedOut);
            && r.traceHeader == TraceOf(headers, None, freshId)
            && (r.body.Timeout? <==> timedOut)
            && (r.body.Timeout? ==> r.body.traceId == r.traceHeader)
  {
  }
}
