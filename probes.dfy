/**
 * The probes behind `/health`: a DNS/TCP connection to port 443 of each
 * allowed host, and an authenticated `GET .../models` to each provider. The
 * network's answers are inputs; what is modelled is how they are recorded.
 */
module HealthProbes {
  import opened Wrappers
  import opened PyDict

  // ------------------------------------------------------------ host probes

  /** What `_probe_host` returns: `(True, None)` or `(False, str(e))`. */
  datatype HostOutcome = Reachable | Unreachable(message: string)

  /** One entry of the `net` dict: `{"ok": ok}` plus `"error"` when the error text is non-empty. */
  datatype HostCheck = HostCheck(ok: bool, error: Option<string>)

  /** A probe the handler makes: host, port and connect timeout. */
  datatype HostProbe = HostProbe(host: string, port: int, timeout: int)

  const HttpsPort := 443

  function HostCheckOf(o: HostOutcome): (c: HostCheck)
    ensures c.ok <==> o.Reachable?
    ensures c.error.Some? <==> o.Unreachable? && o.message != ""
    ensures c.error.Some? ==> c.error.value == o.message
  {
    match o
    case Reachable => HostCheck(true, None)
    case Unreachable(m) => HostCheck(false, if m != "" then Some(m) else None)
  }

  /** The `net` dict after probing `hosts` in order, `outcomes[i]` answering the probe of `hosts[i]`. */
  function NetChecks(hosts: seq<string>, outcomes: seq<HostOutcome>): (r: Dict<HostCheck>)
    requires |hosts| == |outcomes|
    ensures forall k :: k in Keys(r) ==> k in hosts
    ensures |r| <= |hosts|
  {
    if hosts == [] then []
    else
      var n := |hosts| - 1;
      var d := NetChecks(hosts[..n], outcomes[..n]);
      assert forall k :: k in hosts[..n] ==> k in hosts;
      Put(d, hosts[n], HostCheckOf(outcomes[n]))
  }

  /** The probes made for `hosts`: one per entry, in order, repeats included, all to port 443. */
  function HostProbes(hosts: seq<string>, connectTimeout: int): (ps: seq<HostProbe>)
    ensures |ps| == |hosts|
    ensures forall i :: 0 <= i < |hosts| ==> ps[i] == HostProbe(hosts[i], HttpsPort, connectTimeout)
  {
    seq(|hosts|, i requires 0 <= i < |hosts| => HostProbe(hosts[i], HttpsPort, connectTimeout))
  }

  lemma HostProbesStep(hosts: seq<string>, connectTimeout: int, i: nat)
    requires i < |hosts|
    ensures HostProbes(hosts[..i + 1], connectTimeout)
            == HostProbes(hosts[..i], connectTimeout) + [HostProbe(hosts[i], HttpsPort, connectTimeout)]
  {
  }

  /**
   * The loop `for host in ALLOWED_HOSTS: net[host] = ...` (the dict
   * comprehension of the other variant builds the same dict in the same
   * order). Returns the dict and the probes made, in order.
   */
  method ProbeHosts(hosts: seq<string>, outcomes: seq<HostOutcome>, connectTimeout: int)
    returns (net: Dict<HostCheck>, probes: seq<HostProbe>)
    requires |hosts| == |outcomes|
    ensures net == NetChecks(hosts, outcomes)
    ensures probes == HostProbes(hosts, connectTimeout)
  {
    net := [];
    probes := [];
    var i := 0;
    while i < |hosts|
      invariant 0 <= i <= |hosts|
      invariant net == NetChecks(hosts[..i], outcomes[..i])
      invariant probes == HostProbes(hosts[..i], connectTimeout)
    {
      NetChecksStep(hosts, outcomes, i);
      HostProbesStep(hosts, connectTimeout, i);
      probes := probes + [HostProbe(hosts[i], HttpsPort, connectTimeout)];
      net := Put(net, hosts[i], HostCheckOf(outcomes[i]));
      i := i + 1;
    }
    assert hosts[..i] == hosts;
    assert outcomes[..i] == outcomes;
  }

  /** One more turn of the probing loop is one more assignment to `net`. */
  lemma NetChecksStep(hosts: seq<string>, outcomes: seq<HostOutcome>, i: nat)
    requires |hosts| == |outcomes| && i < |hosts|
    ensures NetChecks(hosts[..i + 1], outcomes[..i + 1])
            == Put(NetChecks(hosts[..i], outcomes[..i]), hosts[i], HostCheckOf(outcomes[i]))
  {
    assert hosts[..i + 1][..i] == hosts[..i] && outcomes[..i + 1][..i] == outcomes[..i];
  }

  /** `all(v.get("ok", False) for v in net.values()) if net else True`. */
  predicate AllOk(net: Dict<HostCheck>) {
    forall i :: 0 <= i < |net| ==> net[i].1.ok
  }

  /** Position `i` is the last probe of its host, whose result is the one kept in `net`. */
  predicate LastProbeOf(hosts: seq<string>, i: int)
    requires 0 <= i < |hosts|
  {
    forall j :: i < j < |hosts| ==> hosts[j] != hosts[i]
  }

  /** Every host, judged by its last probe, is reachable (ignoring the hosts in `skip`). */
  predicate ReachableExcept(hosts: seq<string>, outcomes: seq<HostOutcome>, skip: set<string>)
    requires |hosts| == |outcomes|
  {
    forall i :: 0 <= i < |hosts| && LastProbeOf(hosts, i) && hosts[i] !in skip ==> outcomes[i].Reachable?
  }

  predicate HostsReachable(hosts: seq<string>, outcomes: seq<HostOutcome>)
    requires |hosts| == |outcomes|
  {
    ReachableExcept(hosts, outcomes, {})
  }

  predicate AllOkExcept(net: Dict<HostCheck>, skip: set<string>) {
    forall i :: 0 <= i < |net| && net[i].0 !in skip ==> net[i].1.ok
  }

  /** The keys of `net` are distinct. */
  lemma {:induction false} NetChecksDistinct(hosts: seq<string>, outcomes: seq<HostOutcome>)
    requires |hosts| == |outcomes|
    ensures DistinctKeys(NetChecks(hosts, outcomes))
    decreases |hosts|
  {
    if hosts != [] {
      var n := |hosts| - 1;
      NetChecksDistinct(hosts[..n], outcomes[..n]);
      PutDistinct(NetChecks(hosts[..n], outcomes[..n]), hosts[n], HostCheckOf(outcomes[n]));
    }
  }

  /** Assigning `d[k] = v` in a dict with distinct keys: `k` is judged by `v`, the rest as before. */
  lemma {:induction false} AllOkExceptPut(d: Dict<HostCheck>, k: string, v: HostCheck, skip: set<string>)
    requires DistinctKeys(d)
    ensures AllOkExcept(Put(d, k, v), skip) <==> (k !in skip ==> v.ok) && AllOkExcept(d, skip + {k})
    decreases |d|
  {
    if d == [] {
    } else if d[0].0 == k {
      DistinctTail(d);
      assert Put(d, k, v) == [(k, v)] + d[1..];
      assert d == [d[0]] + d[1..];
      AllOkExceptReplaceHead(d[0], d[1..], v, skip);
    } else {
      DistinctTail(d);
      AllOkExceptPut(d[1..], k, v, skip);
      assert Put(d, k, v) == [d[0]] + Put(d[1..], k, v);
      AllOkExceptCons(d[0], Put(d[1..], k, v), skip);
      assert d == [d[0]] + d[1..];
      AllOkExceptCons(d[0], d[1..], skip + {k});
    }
  }

  /** A dict with distinct keys stays so without its first entry. */
  lemma DistinctTail(d: Dict<HostCheck>)
    requires d != [] && DistinctKeys(d)
    ensures DistinctKeys(d[1..]) && forall i :: 0 <= i < |d[1..]| ==> d[1..][i].0 != d[0].0
  {
    forall i | 0 <= i < |d[1..]| ensures d[1..][i].0 != d[0].0 {
      assert d[1..][i] == d[i + 1];
    }
  }

  /** Replacing the value of the first key, which no later entry repeats. */
  lemma AllOkExceptReplaceHead(h: (string, HostCheck), rest: Dict<HostCheck>, v: HostCheck, skip: set<string>)
    requires forall i :: 0 <= i < |rest| ==> rest[i].0 != h.0
    ensures AllOkExcept([(h.0, v)] + rest, skip) <==> (h.0 !in skip ==> v.ok) && AllOkExcept([h] + rest, skip + {h.0})
  {
    AllOkExceptCons((h.0, v), rest, skip);
    AllOkExceptCons(h, rest, skip + {h.0});
    AllOkExceptSkipAbsent(rest, skip, h.0);
  }

  /** Skipping a key that does not occur changes nothing. */
  lemma AllOkExceptSkipAbsent(d: Dict<HostCheck>, skip: set<string>, k: string)
    requires forall i :: 0 <= i < |d| ==> d[i].0 != k
    ensures AllOkExcept(d, skip + {k}) <==> AllOkExcept(d, skip)
  {
  }

  /** The verdict on a dict with one more entry in front. */
  lemma AllOkExceptCons(e: (string, HostCheck), rest: Dict<HostCheck>, skip: set<string>)
    ensures AllOkExcept([e] + rest, skip) <==> (e.0 !in skip ==> e.1.ok) && AllOkExcept(rest, skip)
  {
    var d := [e] + rest;
    assert d[0] == e;
    forall i | 0 <= i < |rest| ensures d[i + 1] == rest[i] { }
  }

  /** Appending one more probe to the sequence, seen from the side of the probe results. */
  lemma ReachableExceptSnoc(hosts: seq<string>, outcomes: seq<HostOutcome>, skip: set<string>)
    requires |hosts| == |outcomes| && hosts != []
    ensures var n := |hosts| - 1;
            ReachableExcept(hosts, outcomes, skip)
            <==> (hosts[n] !in skip ==> outcomes[n].Reachable?)
                 && ReachableExcept(hosts[..n], outcomes[..n], skip + {hosts[n]})
  {
    var n := |hosts| - 1;
    forall i | 0 <= i < n ensures LastProbeOf(hosts, i) <==> LastProbeOf(hosts[..n], i) && hosts[i] != hosts[n] {
      LastProbeSnoc(hosts, i);
    }
    assert LastProbeOf(hosts, n);
  }

  /** An earlier probe is its host's last iff it is so before the final probe, whose host differs. */
  lemma LastProbeSnoc(hosts: seq<string>, i: int)
    requires 0 <= i < |hosts| - 1
    ensures var n := |hosts| - 1;
            LastProbeOf(hosts, i) <==> LastProbeOf(hosts[..n], i) && hosts[i] != hosts[n]
  {
    var n := |hosts| - 1;
    if LastProbeOf(hosts[..n], i) && hosts[i] != hosts[n] {
      forall j | i < j < |hosts| ensures hosts[j] != hosts[i] {
        if j < n { assert hosts[..n][j] == hosts[j]; }
      }
    }
  }

  /**
   * The `net` verdict judged entry by entry equals every host being reachable
   * on its last probe: a host probed twice counts only by the second probe,
   * because the second assignment overwrites the first.
   */
  lemma {:induction false} AllOkExceptIff(hosts: seq<string>, outcomes: seq<HostOutcome>, skip: set<string>)
    requires |hosts| == |outcomes|
    ensures AllOkExcept(NetChecks(hosts, outcomes), skip) <==> ReachableExcept(hosts, outcomes, skip)
    decreases |hosts|
  {
    if hosts != [] {
      var n := |hosts| - 1;
      AllOkExceptIff(hosts[..n], outcomes[..n], skip + {hosts[n]});
      NetChecksDistinct(hosts[..n], outcomes[..n]);
      AllOkExceptPut(NetChecks(hosts[..n], outcomes[..n]), hosts[n], HostCheckOf(outcomes[n]), skip);
      ReachableExceptSnoc(hosts, outcomes, skip);
    }
  }

  /** A host never probed has no entry in `net`. */
  lemma {:induction false} NetChecksUnprobed(hosts: seq<string>, outcomes: seq<HostOutcome>, host: string)
    requires |hosts| == |outcomes| && host !in hosts
    ensures Get(NetChecks(hosts, outcomes), host) == None
    decreases |hosts|
  {
    if hosts != [] {
      var n := |hosts| - 1;
      assert host !in hosts[..n];
      NetChecksUnprobed(hosts[..n], outcomes[..n], host);
      PutGet(NetChecks(hosts[..n], outcomes[..n]), hosts[n], HostCheckOf(outcomes[n]));
    }
  }

  /** A probed host's entry in `net` is the result of its last probe. */
  lemma {:induction false} NetChecksLastProbe(hosts: seq<string>, outcomes: seq<HostOutcome>, i: nat)
    requires |hosts| == |outcomes| && i < |hosts| && LastProbeOf(hosts, i)
    ensures Get(NetChecks(hosts, outcomes), hosts[i]) == Some(HostCheckOf(outcomes[i]))
    decreases |hosts|
  {
    var n := |hosts| - 1;
    var h', o' := hosts[..n], outcomes[..n];
    var d', c := NetChecks(h', o'), HostCheckOf(outcomes[n]);
    assert NetChecks(hosts, outcomes) == Put(d', hosts[n], c);
    if i == n {
      PutGet(d', hosts[n], c);
    } else {
      assert hosts[n] != hosts[i];
      assert LastProbeOf(h', i) && h'[i] == hosts[i] && o'[i] == outcomes[i];
      NetChecksLastProbe(h', o', i);
      PutGetOther(d', hosts[n], c, hosts[i]);
    }
  }

  /** `xs` with every repeat of an earlier entry dropped: each element once, at its first position. */
  function FirstOccurrences(xs: seq<string>): (r: seq<string>)
    ensures forall k :: k in r <==> k in xs
  {
    if xs == [] then []
    else
      var n := |xs| - 1;
      assert xs == xs[..n] + [xs[n]];
      FirstOccurrences(xs[..n]) + (if xs[n] in xs[..n] then [] else [xs[n]])
  }

  /** `net` lists each host once, in the order of the hosts' first occurrences. */
  lemma {:induction false} NetChecksKeys(hosts: seq<string>, outcomes: seq<HostOutcome>)
    requires |hosts| == |outcomes|
    ensures Keys(NetChecks(hosts, outcomes)) == FirstOccurrences(hosts)
    decreases |hosts|
  {
    if hosts != [] {
      var n := |hosts| - 1;
      NetChecksKeys(hosts[..n], outcomes[..n]);
    }
  }

  /** When every probe fails, no entry of `net` is ok. */
  lemma {:induction false} NetChecksAllFailed(hosts: seq<string>, outcomes: seq<HostOutcome>)
    requires |hosts| == |outcomes|
    requires forall i :: 0 <= i < |outcomes| ==> outcomes[i].Unreachable?
    ensures forall e :: e in NetChecks(hosts, outcomes) ==> !e.1.ok
    decreases |hosts|
  {
    if hosts != [] {
      var n := |hosts| - 1;
      NetChecksAllFailed(hosts[..n], outcomes[..n]);
      PutEntries(NetChecks(hosts[..n], outcomes[..n]), hosts[n], HostCheckOf(outcomes[n]));
    }
  }

  /** The aggregate host verdict: ok iff every host is reachable on its last probe. */
  lemma AllOkIff(hosts: seq<string>, outcomes: seq<HostOutcome>)
    requires |hosts| == |outcomes|
    ensures AllOk(NetChecks(hosts, outcomes)) <==> HostsReachable(hosts, outcomes)
  {
    AllOkExceptIff(hosts, outcomes, {});
  }

  /** With each host listed once, the verdict is simply that every probe succeeded. */
  lemma DistinctHostsAllOk(hosts: seq<string>, outcomes: seq<HostOutcome>)
    requires |hosts| == |outcomes|
    requires forall i, j :: 0 <= i < j < |hosts| ==> hosts[i] != hosts[j]
    ensures AllOk(NetChecks(hosts, outcomes)) <==> forall i :: 0 <= i < |outcomes| ==> outcomes[i].Reachable?
  {
    AllOkIff(hosts, outcomes);
    forall i | 0 <= i < |hosts| ensures LastProbeOf(hosts, i) {
    }
  }

  // -------------------------------------------------------- provider probes

  /** What a provider GET comes back with: a status code, or an exception's text. */
  datatype HttpOutcome = Status(code: int) | Raised(message: string)

  /**
   * One entry of the provider `out` dict: `{}` before the probe,
   * `{"ok": ..., "status": code}` after a response, `{"ok": False, "error": ...}`
   * after an exception or without a key.
   */
  datatype ProviderCheck = NotProbed | Answered(ok: bool, status: int) | Failed(error: string)

  /** A GET the handler makes: URL, bearer key and read timeout. */
  datatype ModelsRequest = ModelsRequest(url: string, bearer: string, timeout: int)

  const OpenAiModelsUrl := "https://api.openai.com/v1/models"
  const GroqModelsUrl := "https://api.groq.com/openai/v1/models"
  const MissingKey := "missing_key"

  /** A reply counts as healthy when the key reached the provider, even if it was refused. */
  predicate HealthyStatus(code: int) {
    code == 200 || code == 401 || code == 403
  }

  predicate ProviderOk(c: ProviderCheck) {
    c.Answered? && c.ok
  }

  /** The recorded entry for one provider. */
  function ProviderCheckOf(key: string, reply: HttpOutcome): (c: ProviderCheck)
    ensures ProviderOk(c) <==> key != "" && reply.Status? && HealthyStatus(reply.code)
    ensures c.Answered? <==> key != "" && reply.Status?
    ensures c.Answered? ==> c.status == reply.code
    ensures c.Failed? ==> c.error == if key == "" then MissingKey else reply.message
    ensures !c.NotProbed?
  {
    if key == "" then Failed(MissingKey)
    else match reply
      case Status(code) => Answered(HealthyStatus(code), code)
      case Raised(m) => Failed(m)
  }

  /** The `out` dict `_provider_probe` returns. */
  function ProviderChecks(openaiKey: string, groqKey: string, openaiReply: HttpOutcome, groqReply: HttpOutcome): (r: Dict<ProviderCheck>)
    ensures Keys(r) == ["openai", "groq"]
    ensures Get(r, "openai") == Some(ProviderCheckOf(openaiKey, openaiReply))
    ensures Get(r, "groq") == Some(ProviderCheckOf(groqKey, groqReply))
  {
    [("openai", ProviderCheckOf(openaiKey, openaiReply)), ("groq", ProviderCheckOf(groqKey, groqReply))]
  }

  /** The requests `_provider_probe` sends: one per provider whose key is set. */
  function ProviderRequests(openaiKey: string, groqKey: string, readTimeout: int): (r: seq<ModelsRequest>)
    ensures |r| == (if openaiKey != "" then 1 else 0) + (if groqKey != "" then 1 else 0)
    ensures forall i :: 0 <= i < |r| ==> r[i].bearer != "" && r[i].timeout == readTimeout
  {
    (if openaiKey != "" then [ModelsRequest(OpenAiModelsUrl, openaiKey, readTimeout)] else [])
    + (if groqKey != "" then [ModelsRequest(GroqModelsUrl, groqKey, readTimeout)] else [])
  }

  /**
   * `_provider_probe`: starts from `{"openai": {}, "groq": {}}` and overwrites
   * each entry in turn. `openaiReply` and `groqReply` are what the network
   * answers to the GET, when one is sent.
   */
  method ProbeProviders(openaiKey: string, groqKey: string, openaiReply: HttpOutcome, groqReply: HttpOutcome, readTimeout: int)
    returns (out: Dict<ProviderCheck>, requests: seq<ModelsRequest>)
    ensures out == ProviderChecks(openaiKey, groqKey, openaiReply, groqReply)
    ensures requests == ProviderRequests(openaiKey, groqKey, readTimeout)
  {
    out := [("openai", NotProbed), ("groq", NotProbed)];
    requests := [];
    var openai: ProviderCheck;
    if openaiKey != "" {
      requests := requests + [ModelsRequest(OpenAiModelsUrl, openaiKey, readTimeout)];
      match openaiReply {
        case Status(code) => openai := Answered(HealthyStatus(code), code);
        case Raised(m) => openai := Failed(m);
      }
    } else {
      openai := Failed(MissingKey);
    }
    assert requests == if openaiKey != "" then [ModelsRequest(OpenAiModelsUrl, openaiKey, readTimeout)] else [];
    PutFirstEntry(openai);
    out := Put(out, "openai", openai);
    var groq: ProviderCheck;
    if groqKey != "" {
      requests := requests + [ModelsRequest(GroqModelsUrl, groqKey, readTimeout)];
      match groqReply {
        case Status(code) => groq := Answered(HealthyStatus(code), code);
        case Raised(m) => groq := Failed(m);
      }
    } else {
      groq := Failed(MissingKey);
    }
    PutSecondEntry(openai, groq);
    out := Put(out, "groq", groq);
  }

  lemma PutFirstEntry(a: ProviderCheck)
    ensures Put([("openai", NotProbed), ("groq", NotProbed)], "openai", a) == [("openai", a), ("groq", NotProbed)]
  {
    var d := [("openai", NotProbed), ("groq", NotProbed)];
    assert d[0].0 == "openai" && d[1..] == [("groq", NotProbed)];
  }

  lemma PutSecondEntry(a: ProviderCheck, b: ProviderCheck)
    ensures Put([("openai", a), ("groq", NotProbed)], "groq", b) == [("openai", a), ("groq", b)]
  {
    var d := [("openai", a), ("groq", NotProbed)];
    assert "openai"[0] != "groq"[0];
    assert d[1..] == [("groq", NotProbed)];
    assert Put(d[1..], "groq", b) == [("groq", b)];
  }

  /** Every placeholder of `out` is overwritten: each entry holds a probe result, `ok` only for a healthy answer. */
  lemma ProviderChecksShape(openaiKey: string, groqKey: string, openaiReply: HttpOutcome, groqReply: HttpOutcome)
    ensures var out := ProviderChecks(openaiKey, groqKey, openaiReply, groqReply);
            && |out| == 2
            && (forall i :: 0 <= i < |out| ==> !out[i].1.NotProbed?)
            && (ProviderOk(out[0].1) <==> openaiKey != "" && openaiReply.Status? && HealthyStatus(openaiReply.code))
            && (ProviderOk(out[1].1) <==> groqKey != "" && groqReply.Status? && HealthyStatus(groqReply.code))
  {
  }

  /** No request goes to a provider whose key is empty, and every request carries its provider's key. */
  lemma NoKeyNoRequest(openaiKey: string, groqKey: string, readTimeout: int)
    ensures var rs := ProviderRequests(openaiKey, groqKey, readTimeout);
            && (forall r :: r in rs ==> r.bearer != "" && r.timeout == readTimeout)
            && (forall r :: r in rs && r.url == OpenAiModelsUrl ==> r.bearer == openaiKey)
            && (forall r :: r in rs && r.url == GroqModelsUrl ==> r.bearer == groqKey)
            && (openaiKey == "" <==> forall r :: r in rs ==> r.url != OpenAiModelsUrl)
            && (groqKey == "" <==> forall r :: r in rs ==> r.url != GroqModelsUrl)
  {
  }
}
