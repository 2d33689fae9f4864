/**
 * `_trace(headers, fallback)`: the trace id of a request, taken from the first
 * of six header names that carries a non-empty value, else from the fallback
 * when it is non-empty, else a fresh random id (passed in as `freshId`).
 */
module TraceId {
  import opened Wrappers

  /** The header names, in the order they are tried. */
  const TraceKeys: seq<string> := ["x-trace-id", "x-request-id", "trace-id", "X-Trace-Id", "X-Request-Id", "Trace-Id"]

  /** `headers.get(k)` is truthy: present and not the empty string. */
  predicate Truthy(headers: map<string, string>, k: string) {
    k in headers && headers[k] != ""
  }

  /** The position of the first name in `keys` whose header is truthy. */
  function FirstTruthy(headers: map<string, string>, keys: seq<string>): (r: Option<nat>)
    ensures r.None? <==> forall j :: 0 <= j < |keys| ==> !Truthy(headers, keys[j])
    ensures r.Some? ==> r.value < |keys| && Truthy(headers, keys[r.value])
    ensures r.Some? ==> forall j :: 0 <= j < r.value ==> !Truthy(headers, keys[j])
  {
    if keys == [] then None
    else if Truthy(headers, keys[0]) then Some(0)
    else match FirstTruthy(headers, keys[1..])
      case None => None
      case Some(i) => Some(i + 1)
  }

  /** The value `_trace` returns. */
  function TraceOf(headers: map<string, string>, fallback: Option<string>, freshId: string): (r: string)
    ensures || (exists i :: 0 <= i < |TraceKeys| && Truthy(headers, TraceKeys[i]) && r == headers[TraceKeys[i]])
            || (fallback.Some? && fallback.value != "" && r == fallback.value)
            || r == freshId
  {
    match FirstTruthy(headers, TraceKeys)
    case Some(i) => headers[TraceKeys[i]]
    case None => if fallback.Some? && fallback.value != "" then fallback.value else freshId
  }

  /** `_trace` itself: the loop over the six names with an early return. */
  method Trace(headers: map<string, string>, fallback: Option<string>, freshId: string) returns (tid: string)
    ensures tid == TraceOf(headers, fallback, freshId)
  {
    for i := 0 to |TraceKeys|
      invariant forall j :: 0 <= j < i ==> !Truthy(headers, TraceKeys[j])
    {
      var k := TraceKeys[i];
      if k in headers && headers[k] != "" {
        return headers[k];
      }
    }
    if fallback.Some? && fallback.value != "" {
      tid := fallback.value;
    } else {
      tid := freshId;
    }
  }

  /** A truthy header wins over every later name, over the fallback and over the fresh id. */
  lemma FirstHeaderWins(headers: map<string, string>, i: nat, fallback: Option<string>, freshId: string)
    requires i < |TraceKeys| && Truthy(headers, TraceKeys[i])
    requires forall j :: 0 <= j < i ==> !Truthy(headers, TraceKeys[j])
    ensures TraceOf(headers, fallback, freshId) == headers[TraceKeys[i]]
  {
    var r := FirstTruthy(headers, TraceKeys);
    assert r.Some?;
    assert !(r.value < i) && !(i < r.value);
  }

  /** With no usable header, a non-empty fallback is used, and otherwise the fresh id. */
  lemma NoHeaderUsesFallback(headers: map<string, string>, fallback: Option<string>, freshId: string)
    requires forall k :: k in TraceKeys ==> !Truthy(headers, k)
    ensures fallback.Some? && fallback.value != "" ==> TraceOf(headers, fallback, freshId) == fallback.value
    ensures (fallback.None? || fallback.value == "") ==> TraceOf(headers, fallback, freshId) == freshId
  {
    forall j | 0 <= j < |TraceKeys| ensures !Truthy(headers, TraceKeys[j]) {
      assert TraceKeys[j] in TraceKeys;
    }
  }

  /** The trace id is never empty when the fresh id is not. */
  lemma TraceNonEmpty(headers: map<string, string>, fallback: Option<string>, freshId: string)
    requires freshId != ""
    ensures TraceOf(headers, fallback, freshId) != ""
  {
  }

  /** Only the six names matter: requests that agree on them get the same trace id. */
  lemma TraceDependsOnlyOnTraceKeys(h1: map<string, string>, h2: map<string, string>, fallback: Option<string>, freshId: string)
    requires forall k :: k in TraceKeys ==> (k in h1 <==> k in h2) && (k in h1 ==> h1[k] == h2[k])
    ensures TraceOf(h1, fallback, freshId) == TraceOf(h2, fallback, freshId)
  {
    forall j | 0 <= j < |TraceKeys| ensures Truthy(h1, TraceKeys[j]) <==> Truthy(h2, TraceKeys[j]) {
      assert TraceKeys[j] in TraceKeys;
    }
    var r1, r2 := FirstTruthy(h1, TraceKeys), FirstTruthy(h2, TraceKeys);
    if r1.Some? {
      assert TraceKeys[r1.value] in TraceKeys;
      assert r2.Some? && !(r2.value < r1.value) && !(r1.value < r2.value);
    }
  }
}
