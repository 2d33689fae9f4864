# agent0-lite sidecar: contract, polish and health logic in Dafny

This project models the deterministic core of the agent0-lite sidecar:

- the `vs_bias_prompt` payload contract (`contracts/vs_bias_prompt.py`);
- the deterministic polish step for that artifact (`polish/vs_bias.py`);
- the decision logic shared by the two near-identical sidecar apps (`agent0-lite/app.py` and the top-level `app.py`):
  - parsing comma-separated lists;
  - resolving each setting from environment variable, then YAML, then default;
  - choosing the trace id;
  - the host probes and provider probes behind `GET /health`, and the health verdict, status and response shape.

## Layout

| file | module | models |
|---|---|---|
| `wrappers.dfy` | `Wrappers` | `Option` and `Result` |
| `text.dfy` | `Text` | Python `str.strip()`, `str.lower()` (ASCII letters), `str.split(sep)` and `sep.join(xs)` |
| `pydict.dfy` | `PyDict` | a Python `dict` with string keys: insertion order kept, assignment to an existing key replaces its value in place |
| `contract.dfy` | `VsBiasContract` | the four pydantic (v1) models and `validate_vs_bias_prompt` |
| `polish.dfy` | `VsBiasPolish` | `polish_vs_bias_prompt`, plus an inverse `Unpolish` (through the shape reader `Unframe`) that reads the dimensions and the original prompt back |
| `config.dfy` | `SidecarConfig` | `_split_csv` / `_csv` and the module-level configuration block |
| `trace.dfy` | `TraceId` | `_trace` |
| `probes.dfy` | `HealthProbes` | the host probe loop that fills the `net` dict, its verdict, and `_provider_probe` |
| `health.dfy` | `Health` | the `/health` handler of both variants |
| `middleware.dfy` | `TraceMiddleware` | how the HTTP middleware stamps `X-Trace-Id` (see Findings) |

### Inputs and time

Everything non-deterministic is a parameter:

- the answer of each DNS/TCP probe (`HostOutcome`);
- the answer of each provider GET (`HttpOutcome`: a status code or an exception's text);
- whether the overall deadline passed (`timedOut`);
- `uuid.uuid4().hex` (`freshId`);
- `datetime.utcnow().isoformat()` (`utcIso`).

### Modelling choices

- **Pydantic v1.** The contract is read with pydantic v1 semantics, because the source uses `validator`, `const=True` and `min_items`.
- **Key presence.** A payload key is `Absent`, `Null` or `Given(value)`.
- **Validation.** `Validate` succeeds exactly when the declarative predicate `Accepts` holds. On success, the contract carries the payload's own values with the declared defaults filled in (`Reflects`).
- **Dimensions.** Two dimension lists are kept apart:
  - an absent `bias_dimensions` takes the default `["gender","race","age"]`;
  - a supplied list must have 1 to 7 entries, each from the fixed set of seven, and is then returned as given, repeats and order included.
- **`artifact_type`.** It defaults to `"vs_bias_prompt"`, and any other supplied value is refused.
- **Lists resolved from the environment.** A list setting from the environment is the comma-split, stripped, lower-cased list with empty pieces dropped. It is used only when that list is non-empty.
- **Lists resolved from YAML or defaults.** Otherwise the setting is the YAML list, or the default when that list is missing or empty. Each entry is stripped and lower-cased, and empty entries are kept.
- **Scalar settings.** A scalar setting takes the environment variable whenever it is set, even to `""`.
- **Duplicate hosts.** The `net` dict of `/health` is built by assignment in host order. A host listed twice therefore appears once, at its first position (`HealthProbes.NetChecksKeys`), holding the result of its last probe (`HealthProbes.NetChecksLastProbe`). The verdict `ok` is "every host is reachable by its last probe" (`HealthProbes.AllOkIff`). It reduces to "every probe succeeded" when the hosts are distinct.
- **Provider results** never influence the verdict.
- **Two payload layouts.** The variants nest their payloads differently. `agent0-lite/app.py` puts the results under `checks`. The top-level `app.py` puts them next to the configuration they check. Both are modelled as typed records, and `Health.VariantsAgree` proves that they carry the same values.

### Behaviour of the code worth knowing

- `/health` puts `traceId` in the body only on timeout. The 200/503 payload has none.
- The trace headers are the six fixed names that `_trace` tries in order. There is no case-insensitive matching.
- `int(...)` on a malformed `PORT` or timeout value raises at import. There is no fall-back to defaults.
- The host probes run one after another, inside the deadline. They do not run concurrently.
- `POST /polish` in both apps is a stub that does not call the contract or the polish code.
- `app.py:45` puts a compound `if` after a semicolon, which Python rejects. Its evident meaning, identical to `agent0-lite/app.py:50-52`, is what is modelled.

## Model

| member | source | states |
|---|---|---|
| Text.Strip | polish/vs_bias.py:49 | `strip()` yields a string that neither starts nor ends with whitespace and is no longer than the input |
| Text.StripCut | polish/vs_bias.py:49 | what `strip()` returns is a contiguous piece of the input with only whitespace before and after it |
| Text.StripUnique | polish/vs_bias.py:49 | whatever whitespace surrounds a trimmed string, stripping returns exactly that string (the characterisation of `strip`) |
| Text.StripIdempotent | polish/vs_bias.py:49 | stripping twice equals stripping once |
| Text.LStrip | polish/vs_bias.py:49 | `lstrip()` returns a suffix of the input, only whitespace is cut, and the result starts with no whitespace |
| Text.RStrip | polish/vs_bias.py:49 | `rstrip()` returns a prefix of the input, only whitespace is cut, and the result ends with no whitespace |
| Text.Lower | agent0-lite/app.py:66 | `lower()` keeps the length and maps each character on its own: `A`-`Z` to `a`-`z`, everything else unchanged |
| Text.LowerProperties | agent0-lite/app.py:66 | `lower()` output is lower-case, stays trimmed when the input is, and gains no comma |
| Text.LowerFixed | agent0-lite/app.py:75-78 | a string with no upper-case letter is left unchanged by `lower()` |
| Text.SplitOn | agent0-lite/app.py:66 | `s.split(sep)` yields at least one piece, and exactly `[s]` when there is a single piece |
| Text.Join | polish/vs_bias.py:34 | `sep.join([])` is `""`; otherwise the join is as long as the pieces plus one separator between each neighbouring pair |
| Text.JoinSplit | agent0-lite/app.py:66 | joining the pieces of `s.split(sep)` with `sep` gives `s` back |
| Text.SplitJoin | polish/vs_bias.py:34 | splitting `sep.join(xs)` on `sep` gives `xs` back when no piece holds the separator's first character |
| Text.JoinAvoids | polish/vs_bias.py:34 | a character in neither the separator nor any piece is not in the join |
| PyDict.Get | agent0-lite/app.py:104-123 | the reader of a Python dict (`d.get(k)`) through which the lemmas about `out` and `net` state their contents: `None` exactly when `k` is not a key, else a value stored under `k` |
| PyDict.Put | agent0-lite/app.py:168 | `d[k] = v` keeps an existing key's position and appends a new key last |
| PyDict.PutGet | agent0-lite/app.py:168 | after `d[k] = v`, `k` reads `v` and every other key reads what it read before |
| PyDict.PutDistinct | agent0-lite/app.py:168 | assignment never duplicates a key |
| PyDict.PutEntries | agent0-lite/app.py:168 | after `d[k] = v` every entry is the new one or was already in the dict |
| VsBiasContract.RequiredString | contracts/vs_bias_prompt.py:13-14 | a required string is accepted iff present, not null and of length in [lo, hi]; then its value is the given one |
| VsBiasContract.OptionalString | contracts/vs_bias_prompt.py:15 | `notes_for_lite` is accepted iff absent, null or at most 1000 characters; absent and null give `None` |
| VsBiasContract.Defaulted | contracts/vs_bias_prompt.py:41-63 | a non-Optional key with a default is refused only when null; when missing it takes the default, when given it keeps its value |
| VsBiasContract.FirstInvalidDimension | contracts/vs_bias_prompt.py:33-35 | `None` iff every dimension is in the allowed set; otherwise the entry at the first position holding an unknown dimension |
| VsBiasContract.Dimensions | contracts/vs_bias_prompt.py:16-36 | accepted iff absent, or a list of 1..7 allowed dimensions; absent gives `["gender","race","age"]`, a given list is returned unchanged |
| VsBiasContract.ValidateContent | contracts/vs_bias_prompt.py:11-36 | the content object is accepted iff present and every field constraint holds; a refusal reports at least one violation |
| VsBiasContract.ValidateContext | contracts/vs_bias_prompt.py:39-43 | the context object is accepted iff present and neither `app_name` nor `constraints` is null |
| VsBiasContract.ValidateInstructions | contracts/vs_bias_prompt.py:46-63 | the instructions object is accepted iff present and `goals`, `allowed_changes`, `preserve_intent` are not null |
| VsBiasContract.ValidateArtifactType | contracts/vs_bias_prompt.py:68-78 | `artifact_type` is accepted iff absent or exactly `"vs_bias_prompt"`, and the result is always `"vs_bias_prompt"` |
| VsBiasContract.Validate | contracts/vs_bias_prompt.py:66-94 | succeeds iff every declared constraint holds (`Accepts`); on success the contract meets all bounds and carries exactly the payload's values with defaults filled (`Reflects`); a failure lists at least one violation |
| VsBiasContract.InvalidDimensionIsNamed | contracts/vs_bias_prompt.py:33-35 | a correctly sized dimension list with an unknown entry is rejected with an error naming the first unknown entry |
| VsBiasContract.DefaultsFilled | contracts/vs_bias_prompt.py:41-72 | omitting every optional key yields the declared defaults (`"VS Bias Audit Builder"`, `None`, `[]`, the two fixed lists, `true`, `1000`) |
| VsBiasPolish.Polish | polish/vs_bias.py:19-72 | the prompt is header + stripped original + footer; user query, notes and dimensions are copied; the report is the fixed summary and details, the contract's artifact type and the clock reading plus `"Z"` |
| VsBiasPolish.FirstLine | polish/vs_bias.py:36-39 | the text before the first line break, which holds none and is followed by one when shorter than the input |
| VsBiasPolish.UnpolishPolishPrompt | polish/vs_bias.py:34-49 | from the polished prompt over allowed dimensions, the dimension list (order and repeats) and the stripped prompt are read back exactly |
| VsBiasPolish.UnpolishParts | polish/vs_bias.py:36-47 | the header line and the body can be cut out of any text of the polished shape |
| VsBiasPolish.UnframeParts | polish/vs_bias.py:36-47 | between any fixed prefix and footer, a line with no line break, a blank line and a body are cut back out exactly |
| VsBiasPolish.HeaderList | polish/vs_bias.py:34 | the `", "`-joined list of allowed dimensions holds no line break and splits back into the same dimensions, order and repeats kept |
| VsBiasPolish.ValidDimensionChars | contracts/vs_bias_prompt.py:24-32 | no allowed dimension holds a comma or a line break, so `", "` never occurs inside one |
| VsBiasPolish.PolishRoundTrip | polish/vs_bias.py:34-49 | a validated contract's polished prompt gives back its dimensions and its stripped prompt |
| VsBiasPolish.FooterIsConstant | polish/vs_bias.py:41-47 | every polished prompt ends with the same footer, whatever the contract and the clock |
| VsBiasPolish.PolishDependsOnlyOnContent | polish/vs_bias.py:31-56 | the polished artifact depends on the content alone: context, polish instructions (`max_length` included), request id and clock never change it |
| VsBiasPolish.PolishedBodyIsStrippedOriginal | polish/vs_bias.py:49 | the text between header and footer is trimmed, is its own strip, and is a piece of the original with only whitespace around it |
| SidecarConfig.CleanNonEmpty | agent0-lite/app.py:66 | every kept piece is non-empty, trimmed, lower-case and comma-free, and no more pieces come out than went in |
| SidecarConfig.CleanToken | agent0-lite/app.py:66 | a comma-free piece that is not blank becomes a non-empty, trimmed, lower-case, comma-free entry |
| SidecarConfig.Clean | agent0-lite/app.py:75-78 | `x.strip().lower()` is trimmed, lower-case and no longer than `x` |
| SidecarConfig.CleanNonEmptyOne | agent0-lite/app.py:66 | a single comma-free piece is dropped iff it is blank, and otherwise kept as its stripped, lower-cased form |
| SidecarConfig.CleanNonEmptyAppend | agent0-lite/app.py:66 | the comprehension over two runs of pieces is the concatenation of its results over each, order kept |
| SidecarConfig.SplitCsv | agent0-lite/app.py:65-66 | `None` and `""` give `[]`; every entry is non-empty, trimmed, lower-case and comma-free (`_csv` at app.py:60 is the same) |
| SidecarConfig.SplitCsvPiece | agent0-lite/app.py:65-66 | a comma-free string parses to `[]` when blank, and otherwise to the one entry `s.strip().lower()` |
| SidecarConfig.SplitCsvComma | agent0-lite/app.py:65-66 | parsing `a + "," + b` with `a` comma-free is parsing `a` followed by parsing `b`; with `SplitCsvPiece` this fixes the result of every input |
| SidecarConfig.SplitCsvJoin | agent0-lite/app.py:65-66 | a list of such entries written comma-separated parses back to the same list, same order, repeats kept |
| SidecarConfig.SplitCsvIdempotent | app.py:60 | parsing the comma-joined result of a parse changes nothing |
| SidecarConfig.CleanNonEmptyOfTokens | agent0-lite/app.py:66 | the comprehension keeps a list of clean entries as it is |
| SidecarConfig.CleanAll | agent0-lite/app.py:75-78 | the per-entry clean-up keeps the number and order of entries, each entry becomes `Clean` of the original, and all are trimmed and lower-case |
| SidecarConfig.ResolveList | agent0-lite/app.py:75-78 | non-empty environment CSV first, else a non-empty YAML list cleaned with empties kept, else the cleaned default; every entry trimmed and lower-case (app.py:61-63 alike) |
| SidecarConfig.ResolveScalar | agent0-lite/app.py:71-83 | a set environment variable wins even when empty, else the YAML key, else the default (app.py:56-67 alike) |
| SidecarConfig.LoadConfig | agent0-lite/app.py:71-86 | each list setting is `ResolveList` of its environment CSV, YAML list and built-in default, so every entry is clean; each scalar, the timeouts `T_HEALTH_OVERALL`, `T_DNS`, `T_CONNECT`, `T_READ` included, is `ResolveScalar` of its variable, YAML key and default; the API keys are the environment's, `""` when unset (app.py:56-70 alike) |
| SidecarConfig.CleanFixed | agent0-lite/app.py:75-78 | an entry that is trimmed and has no upper-case letter is kept by strip-then-lower |
| SidecarConfig.CleanAllFixed | agent0-lite/app.py:75-78 | a list whose entries are all clean is kept by the per-entry clean-up |
| SidecarConfig.DefaultAllowClean | agent0-lite/app.py:75 | the default allow list `["openai","groq"]` survives the clean-up unchanged |
| SidecarConfig.DefaultDenyClean | agent0-lite/app.py:76 | the default deny list of six providers survives the clean-up unchanged |
| SidecarConfig.DefaultHostsClean | agent0-lite/app.py:78 | the default host list survives the clean-up unchanged |
| SidecarConfig.LoadConfigDefaults | agent0-lite/app.py:71-86 | with no environment variable and no YAML key, every setting is its built-in default |
| SidecarConfig.EmptyEnvListFallsBackToYaml | app.py:61-63 | an environment list set to `""` does not win: the YAML list is used, blank entries kept |
| TraceId.FirstTruthy | agent0-lite/app.py:50-52 | `None` iff no listed header is present and non-empty; otherwise the first such position |
| TraceId.TraceOf | agent0-lite/app.py:49-54 | the trace id is the value of one of the six listed headers that is present and non-empty, or the non-empty fallback, or the fresh id |
| TraceId.Trace | agent0-lite/app.py:49-54 | the loop with early return computes exactly `TraceOf` (app.py:43-46 alike) |
| TraceId.FirstHeaderWins | agent0-lite/app.py:50-52 | the first non-empty header in the fixed order wins over later names, the fallback and the fresh id |
| TraceId.NoHeaderUsesFallback | agent0-lite/app.py:53-54 | with no usable header, a non-empty fallback is used, otherwise the fresh id |
| TraceId.TraceNonEmpty | app.py:43-46 | the trace id is never empty when the fresh id is not |
| TraceId.TraceDependsOnlyOnTraceKeys | agent0-lite/app.py:50 | requests that agree on the six header names get the same trace id |
| HealthProbes.HostCheckOf | agent0-lite/app.py:168 | a host entry is ok iff the probe succeeded, and carries `error` exactly when the probe failed with non-empty text |
| HealthProbes.HostProbes | agent0-lite/app.py:166-167 | one probe per listed host, in order, repeats included, all to port 443 with the connect timeout |
| HealthProbes.ProbeHosts | agent0-lite/app.py:165-168 | the loop builds exactly the dict of successive assignments and makes exactly the listed probes |
| HealthProbes.NetChecks | agent0-lite/app.py:165-168 | every `net` key is a listed host, and `net` has no more entries than hosts were listed |
| HealthProbes.NetChecksDistinct | agent0-lite/app.py:165-168 | the `net` dict has no repeated host |
| HealthProbes.NetChecksUnprobed | app.py:128-129 | a host never listed has no entry in `net` |
| HealthProbes.NetChecksLastProbe | app.py:128-129 | a listed host's entry is the result of its last probe |
| HealthProbes.FirstOccurrences | agent0-lite/app.py:165-168 | the hosts with later repeats dropped hold exactly the same hosts |
| HealthProbes.NetChecksKeys | agent0-lite/app.py:165-168 | the keys of `net`, in order, are the hosts in the order of their first occurrence, each once (app.py:128-129 alike) |
| HealthProbes.NetChecksAllFailed | agent0-lite/app.py:165-168 | when every probe fails, no entry of `net` is ok |
| HealthProbes.AllOkExceptPut | agent0-lite/app.py:168 | in a dict with distinct keys, after `d[k] = v` the verdict is `v`'s for `k` and the old one for every other key |
| HealthProbes.ReachableExceptSnoc | agent0-lite/app.py:166-168 | one more probe adds one more condition on the probe results |
| HealthProbes.AllOkExceptIff | agent0-lite/app.py:165-174 | the per-entry verdict on `net` equals every host being reachable by its last probe, outside any excluded set |
| HealthProbes.AllOkIff | agent0-lite/app.py:174 | `all(ok)` over `net` holds iff every host is reachable by its last probe; true for no hosts (app.py:131 alike) |
| HealthProbes.DistinctHostsAllOk | app.py:131 | with each host listed once, the verdict is that every probe succeeded |
| HealthProbes.ProviderCheckOf | agent0-lite/app.py:106-122 | empty key: `missing_key`; a response: ok iff its status is 200, 401 or 403, and the status is recorded; an exception: not ok with its text |
| HealthProbes.ProviderChecks | agent0-lite/app.py:103-123 | the provider dict has the keys `openai` then `groq`, each holding its classified result |
| HealthProbes.ProviderRequests | agent0-lite/app.py:105-122 | one GET per non-empty key, no more, each with a non-empty bearer and the read timeout |
| HealthProbes.ProbeProviders | agent0-lite/app.py:103-123 | the dict ends with one classified entry per provider, and a request is sent exactly for each non-empty key (app.py:84-103 alike) |
| HealthProbes.PutFirstEntry | agent0-lite/app.py:104-113 | assigning the first provider's entry replaces its placeholder in place and leaves `groq` second |
| HealthProbes.PutSecondEntry | agent0-lite/app.py:115-122 | assigning the second provider's entry leaves the first in place |
| HealthProbes.ProviderChecksShape | agent0-lite/app.py:104-122 | both `{}` placeholders are overwritten, so no entry is left unprobed, and each provider is ok exactly when it has a key and answered 200, 401 or 403 (app.py:85-102 alike) |
| HealthProbes.NoKeyNoRequest | agent0-lite/app.py:106-122 | a GET goes to a provider's URL iff its key is non-empty; each GET carries that provider's own key as bearer and the read timeout |
| Health.ReasonFor | agent0-lite/app.py:177-178 | `reason` is absent exactly when the verdict is ok |
| Health.Payload | agent0-lite/app.py:157-179 | the non-timeout body carries the verdict and its reason, the `net` dict and the provider dict it is given, the service name, version, allow/deny lists and allowed hosts of the configuration, nested as its variant nests them (under `checks` in agent0-lite/app.py, next to the configuration in app.py:133-139) |
| Health.HealthResponse | agent0-lite/app.py:152-185 | the response carries the given trace id, status 200 or 503, a timeout body exactly on timeout, and body `ok` exactly on 200; a completed check's body is the payload of `NetChecks` of the allowed hosts, `ProviderChecks` of the keys and the verdict on that `net` |
| Health.Health | agent0-lite/app.py:152-185 | the handler's response is `HealthResponse` for the request's trace id; it probes every allowed host in order and sends the provider requests |
| Health.StatusIff | agent0-lite/app.py:174-182 | status is 200 or 503, and 200 iff the deadline held and every host is reachable by its last probe (app.py:131-143 alike) |
| Health.NoHostsIsHealthy | app.py:131 | with no allowed hosts, a check that meets the deadline answers 200 |
| Health.AllHostsDown | agent0-lite/app.py:165-182 | when every allowed host is unreachable and the deadline holds, every `net` entry in the body has `ok` false, and with at least one host the status is 503 |
| Health.BodyAgreesWithStatus | agent0-lite/app.py:176-185 | body `ok` is true exactly on 200; `reason` is absent exactly on 200 and otherwise names the timeout or the failed network checks; the header is the handler's trace id |
| Health.TimeoutShape | app.py:144-145 | on timeout: 503 with `{ok: false, reason: "health timeout", traceId: tid}`, whatever the probes found |
| Health.ProvidersNeverDecide | agent0-lite/app.py:172-176 | provider keys and replies never change status, verdict or reason |
| Health.VariantsAgree | app.py:133-140 | the two payload layouts carry the same verdict, reason, identity, lists and check results (agent0-lite/app.py:157-179 nests them under `checks`) |
| TraceMiddleware.Stamp | agent0-lite/app.py:145 | the middleware changes only the `X-Trace-Id` header of the response |
| TraceMiddleware.ServeHealthAsWritten | agent0-lite/app.py:136-185 | as written, the header is the middleware's own `_trace` result, a timeout body names the handler's `_trace` result, and the status is the handler's |
| TraceMiddleware.ServeHealth | agent0-lite/app.py:152-185 | with a single `_trace` per request, the response is the handler's response for that trace id |
| TraceMiddleware.TimeoutTraceMismatch | agent0-lite/app.py:138-145 | as written, a request with no trace header that times out gets a body `traceId` different from its `X-Trace-Id` header |
| TraceMiddleware.AsWrittenAgreesWithTraceHeader | app.py:112-115 | as written, body and header agree whenever the request carries a usable trace header |
| TraceMiddleware.ServedTraceAgrees | agent0-lite/app.py:154-185 | with one trace id per request, the header is that id and a timeout body always names it |

## Left out

- FastAPI routing and CORS are not modelled. They are framework configuration.
- The JSON log formatter and `LOG_LEVEL` are not modelled. They produce output only.
- Of the `_trace_logger` middleware, only its `X-Trace-Id` stamping is modelled. Its logging, its timing and its 500 response to an unhandled exception are not.
- The `/polish` and `/delegate` handlers are not modelled. They are constant stubs in both apps.
- `_probe_host` and the httpx client are not modelled. What DNS, TCP and HTTP return, including the text of `str(e)`, are inputs.
- `asyncio.wait_for` is modelled only as the `timedOut` flag, judged after the probes. The model does not capture which probes finished before the deadline, or that the blocking host probes delay it.
- `_load_yaml` and `CONFIG_PATH` are not modelled. The YAML document is an input with its nested keys flattened.
- YAML values of the wrong type, such as a string where a list is expected, are not modelled.
- `int(...)` parsing of `PORT` and the timeouts is not modelled. The inputs are already numbers. In the source, a malformed value raises at start-up.
- `uuid.uuid4()`, `time.time()` and `datetime.utcnow()` are parameters of the model.
- The pydantic error-message wording is not modelled. Violations are recorded only by location and kind.
- Pydantic type coercion and extra keys are not modelled. Every value is taken to have its declared type, and extra keys would be ignored.
- VsBiasContract.Validate: reports one violation per field. Inside `bias_dimensions` it names only the first unknown entry, as the `for` loop raises on it.
- Text.Lower: lower-cases ASCII letters only. Python's full Unicode case mapping is not modelled.
- Text.Strip: uses Python's `str.isspace` code points as the whitespace set.
- Health.Payload: key order is not modelled. The JSON bodies are typed records whose fields follow the keys.
- The `dict(req.headers)` conversion is not modelled. The header map is taken as given. With Starlette's lower-cased header names, the three capitalised names that `_trace` tries never match.
- `Config.dns` (`T_DNS`) is read only by `agent0-lite/app.py`, and no probe uses it. The top-level `app.py` has no such setting.

## Findings

| source | as written | input that shows it | evidently intended | confidence | as-written member | corrected member |
|---|---|---|---|---|---|---|
| agent0-lite/app.py:138-145 | `/health` calls `_trace` itself for the body and its `X-Trace-Id` header. The middleware calls `_trace` again and overwrites that header. With no trace header, each call draws its own `uuid4()`. The top-level `app.py:112-125` does the same. | `GET /health` with no trace header whose checks time out: the body names the handler's id, the header the middleware's | the timeout body's `traceId` equals the `X-Trace-Id` header of the same response | not executed; medium | TraceMiddleware.TimeoutTraceMismatch | TraceMiddleware.ServedTraceAgrees |
