/**
 * `GET /health` of the sidecar: probe the allowed hosts and the providers,
 * decide `ok` from the hosts alone, and answer 200 or 503 with the payload,
 * or 503 with a short body when the overall deadline passes. The two
 * variants of the sidecar differ only in how the payload is nested.
 */
module Health {
  import opened Wrappers
  import opened PyDict
  import opened TraceId
  import opened HealthProbes
  import opened SidecarConfig

  const NetworkChecksFailed := "network checks failed"
  const HealthTimeout := "health timeout"

  // Payload of `agent0-lite/app.py`: the check results under a `checks` key.
  datatype LiteProviders = LiteProviders(allow: seq<string>, deny: seq<string>)
  datatype LiteNetwork = LiteNetwork(allowedHosts: seq<string>)
  datatype LiteChecks = LiteChecks(network: Dict<HostCheck>, providers: Dict<ProviderCheck>)
  datatype LitePayload = LitePayload(
    service: string, version: string, providers: LiteProviders, network: LiteNetwork,
    checks: LiteChecks, ok: bool, reason: Option<string>)

  // Payload of the top-level `app.py`: each result next to the configuration it checks.
  datatype RootProviders = RootProviders(allow: seq<string>, deny: seq<string>, checks: Dict<ProviderCheck>)
  datatype RootNetwork = RootNetwork(allowedHosts: seq<string>, checks: Dict<HostCheck>)
  datatype RootPayload = RootPayload(
    ok: bool, service: string, version: string, providers: RootProviders, network: RootNetwork,
    reason: Option<string>)

  /** Which variant of the sidecar answers. */
  datatype Variant = AgentLite | RootApp

  datatype Body =
    | Lite(lite: LitePayload)
    | Root(root: RootPayload)
    | Timeout(timeoutOk: bool, timeoutReason: string, traceId: string)

  datatype Response = Response(status: int, body: Body, traceHeader: string)

  /** The body's `ok` entry. */
  function BodyOk(b: Body): bool {
    match b
    case Lite(p) => p.ok
    case Root(p) => p.ok
    case Timeout(ok, _, _) => ok
  }

  /** The body's `reason` entry, `None` when absent. */
  function BodyReason(b: Body): Option<string> {
    match b
    case Lite(p) => p.reason
    case Root(p) => p.reason
    case Timeout(_, reason, _) => Some(reason)
  }

  /** The body's `net` dict, `None` for the timeout body. */
  function BodyNet(b: Body): Option<Dict<HostCheck>> {
    match b
    case Lite(p) => Some(p.checks.network)
    case Root(p) => Some(p.network.checks)
    case Timeout(_, _, _) => None
  }

  /** The body's provider results, `None` for the timeout body. */
  function BodyProviders(b: Body): Option<Dict<ProviderCheck>> {
    match b
    case Lite(p) => Some(p.checks.providers)
    case Root(p) => Some(p.providers.checks)
    case Timeout(_, _, _) => None
  }

  /** `"reason"` is set exactly when the verdict is not ok. */
  function ReasonFor(ok: bool): (r: Option<string>)
    ensures r.None? <==> ok
  {
    if ok then None else Some(NetworkChecksFailed)
  }

  /** The payload of a completed check, nested as the variant nests it. */
  function Payload(variant: Variant, cfg: Config, net: Dict<HostCheck>, providers: Dict<ProviderCheck>, ok: bool): (r: Body)
    ensures BodyOk(r) == ok && BodyReason(r) == ReasonFor(ok)
    ensures r.Lite? <==> variant == AgentLite
    ensures !r.Timeout?
    ensures BodyNet(r) == Some(net) && BodyProviders(r) == Some(providers)
    ensures r.Lite? ==> && r.lite.service == cfg.serviceName && r.lite.version == cfg.buildVersion
                        && r.lite.providers == LiteProviders(cfg.allowProviders, cfg.denyProviders)
                        && r.lite.network == LiteNetwork(cfg.allowedHosts)
    ensures r.Root? ==> && r.root.service == cfg.serviceName && r.root.version == cfg.buildVersion
                        && r.root.providers.allow == cfg.allowProviders && r.root.providers.deny == cfg.denyProviders
                        && r.root.network.allowedHosts == cfg.allowedHosts
  {
    match variant
    case AgentLite =>
      Lite(LitePayload(cfg.serviceName, cfg.buildVersion,
                       LiteProviders(cfg.allowProviders, cfg.denyProviders),
                       LiteNetwork(cfg.allowedHosts),
                       LiteChecks(net, providers), ok, ReasonFor(ok)))
    case RootApp =>
      Root(RootPayload(ok, cfg.serviceName, cfg.buildVersion,
                       RootProviders(cfg.allowProviders, cfg.denyProviders, providers),
                       RootNetwork(cfg.allowedHosts, net), ReasonFor(ok)))
  }

  /**
   * The handler's response for trace id `tid`: `hostOutcomes[i]` answers the
   * probe of the i-th allowed host, the replies answer the provider GETs, and
   * `timedOut` says whether the overall deadline passed first.
   */
  function HealthResponse(variant: Variant, cfg: Config, hostOutcomes: seq<HostOutcome>,
                          openaiReply: HttpOutcome, groqReply: HttpOutcome, timedOut: bool, tid: string): (r: Response)
    requires |hostOutcomes| == |cfg.allowedHosts|
    ensures r.traceHeader == tid && (r.status == 200 || r.status == 503)
    ensures r.body.Timeout? <==> timedOut
    ensures BodyOk(r.body) <==> r.status == 200
    ensures !timedOut ==> r.body == Payload(variant, cfg, NetChecks(cfg.allowedHosts, hostOutcomes),
                                            ProviderChecks(cfg.openaiApiKey, cfg.groqApiKey, openaiReply, groqReply),
                                            AllOk(NetChecks(cfg.allowedHosts, hostOutcomes)))
  {
    if timedOut then Response(503, Timeout(false, HealthTimeout, tid), tid)
    else
      var net := NetChecks(cfg.allowedHosts, hostOutcomes);
      var providers := ProviderChecks(cfg.openaiApiKey, cfg.groqApiKey, openaiReply, groqReply);
      var ok := AllOk(net);
      Response(if ok then 200 else 503, Payload(variant, cfg, net, providers, ok), tid)
  }

  /**
   * `health(req)`: the trace id from the request headers (`freshId` standing
   * for `uuid.uuid4().hex`), then the host probes in order, then the provider
   * probes. The deadline is judged after the probes.
   */
  method Health(variant: Variant, cfg: Config, headers: map<string, string>, freshId: string,
                hostOutcomes: seq<HostOutcome>, openaiReply: HttpOutcome, groqReply: HttpOutcome, timedOut: bool)
    returns (resp: Response, hostProbes: seq<HostProbe>, requests: seq<ModelsRequest>)
    requires |hostOutcomes| == |cfg.allowedHosts|
    ensures resp == HealthResponse(variant, cfg, hostOutcomes, openaiReply, groqReply, timedOut, TraceOf(headers, None, freshId))
    ensures hostProbes == HostProbes(cfg.allowedHosts, cfg.connect)
    ensures requests == ProviderRequests(cfg.openaiApiKey, cfg.groqApiKey, cfg.read)
  {
    var tid := Trace(headers, None, freshId);
    var net;
    net, hostProbes := ProbeHosts(cfg.allowedHosts, hostOutcomes, cfg.connect);
    var providers;
    providers, requests := ProbeProviders(cfg.openaiApiKey, cfg.groqApiKey, openaiReply, groqReply, cfg.read);
    if timedOut {
      resp := Response(503, Timeout(false, HealthTimeout, tid), tid);
    } else {
      var ok := AllOk(net);
      var status := if ok then 200 else 503;
      resp := Response(status, Payload(variant, cfg, net, providers, ok), tid);
    }
  }

  // ------------------------------------------------------------- properties

  /**
   * Every allowed host unreachable and the deadline held: the body reports
   * each host's entry with `ok` false, and with at least one host the answer is 503.
   */
  lemma AllHostsDown(variant: Variant, cfg: Config, hostOutcomes: seq<HostOutcome>,
                     openaiReply: HttpOutcome, groqReply: HttpOutcome, tid: string)
    requires |hostOutcomes| == |cfg.allowedHosts|
    requires forall i :: 0 <= i < |hostOutcomes| ==> hostOutcomes[i].Unreachable?
    ensures var r := HealthResponse(variant, cfg, hostOutcomes, openaiReply, groqReply, false, tid);
            && BodyNet(r.body).Some?
            && (forall e :: e in BodyNet(r.body).value ==> !e.1.ok)
            && (cfg.allowedHosts != [] ==> r.status == 503)
  {
    NetChecksAllFailed(cfg.allowedHosts, hostOutcomes);
    if cfg.allowedHosts != [] {
      StatusIff(variant, cfg, hostOutcomes, openaiReply, groqReply, false, tid);
      assert LastProbeOf(cfg.allowedHosts, |cfg.allowedHosts| - 1);
    }
  }

  /** 200 exactly when the deadline held and every allowed host is reachable (by its last probe); 503 otherwise. */
  lemma StatusIff(variant: Variant, cfg: Config, hostOutcomes: seq<HostOutcome>,
                  openaiReply: HttpOutcome, groqReply: HttpOutcome, timedOut: bool, tid: string)
    requires |hostOutcomes| == |cfg.allowedHosts|
    ensures var r := HealthResponse(variant, cfg, hostOutcomes, openaiReply, groqReply, timedOut, tid);
            && (r.status == 200 || r.status == 503)
            && (r.status == 200 <==> !timedOut && HostsReachable(cfg.allowedHosts, hostOutcomes))
  {
    AllOkIff(cfg.allowedHosts, hostOutcomes);
  }

  /** With no allowed hosts, a check that meets the deadline is healthy. */
  lemma NoHostsIsHealthy(variant: Variant, cfg: Config, openaiReply: HttpOutcome, groqReply: HttpOutcome, tid: string)
    requires cfg.allowedHosts == []
    ensures HealthResponse(variant, cfg, [], openaiReply, groqReply, false, tid).status == 200
  {
  }

  /**
   * The body agrees with the status: `ok` is true exactly on 200, `reason` is
   * absent exactly on 200, and it names the deadline or the failed network checks.
   */
  lemma BodyAgreesWithStatus(variant: Variant, cfg: Config, hostOutcomes: seq<HostOutcome>,
                             openaiReply: HttpOutcome, groqReply: HttpOutcome, timedOut: bool, tid: string)
    requires |hostOutcomes| == |cfg.allowedHosts|
    ensures var r := HealthResponse(variant, cfg, hostOutcomes, openaiReply, groqReply, timedOut, tid);
            && BodyOk(r.body) == (r.status == 200)
            && BodyReason(r.body)
               == (if r.status == 200 then None
                   else Some(if timedOut then HealthTimeout else NetworkChecksFailed))
            && r.traceHeader == tid
  {
  }

  /** On timeout: 503 and `{"ok": false, "reason": "health timeout", "traceId": tid}`, whatever the probes found. */
  lemma TimeoutShape(variant: Variant, cfg: Config, hostOutcomes: seq<HostOutcome>,
                     openaiReply: HttpOutcome, groqReply: HttpOutcome, tid: string)
    requires |hostOutcomes| == |cfg.allowedHosts|
    ensures var r := HealthResponse(variant, cfg, hostOutcomes, openaiReply, groqReply, true, tid);
            r.status == 503 && r.body == Timeout(false, HealthTimeout, tid)
  {
  }

  /** The provider keys and replies never change the status, the verdict or the reason. */
  lemma ProvidersNeverDecide(variant: Variant, cfg1: Config, cfg2: Config, hostOutcomes: seq<HostOutcome>,
                             o1: HttpOutcome, g1: HttpOutcome, o2: HttpOutcome, g2: HttpOutcome, timedOut: bool, tid: string)
    requires cfg1.allowedHosts == cfg2.allowedHosts && |hostOutcomes| == |cfg1.allowedHosts|
    ensures var r1 := HealthResponse(variant, cfg1, hostOutcomes, o1, g1, timedOut, tid);
            var r2 := HealthResponse(variant, cfg2, hostOutcomes, o2, g2, timedOut, tid);
            && r1.status == r2.status
            && BodyOk(r1.body) == BodyOk(r2.body)
            && BodyReason(r1.body) == BodyReason(r2.body)
  {
  }

  /**
   * The two variants report the same thing: same status, verdict and reason,
   * and the same configuration and check results, each at its own place in
   * the nesting.
   */
  lemma VariantsAgree(cfg: Config, hostOutcomes: seq<HostOutcome>, openaiReply: HttpOutcome, groqReply: HttpOutcome, tid: string)
    requires |hostOutcomes| == |cfg.allowedHosts|
    ensures var a := HealthResponse(AgentLite, cfg, hostOutcomes, openaiReply, groqReply, false, tid);
            var b := HealthResponse(RootApp, cfg, hostOutcomes, openaiReply, groqReply, false, tid);
            && a.status == b.status && a.traceHeader == b.traceHeader
            && a.body.Lite? && b.body.Root?
            && var lite, root := a.body.lite, b.body.root;
            && lite.ok == root.ok && lite.reason == root.reason
            && lite.service == root.service && lite.version == root.version
            && lite.providers.allow == root.providers.allow && lite.providers.deny == root.providers.deny
            && lite.network.allowedHosts == root.network.allowedHosts
            && lite.checks.network == root.network.checks
            && lite.checks.providers == root.providers.checks
  {
  }
}
