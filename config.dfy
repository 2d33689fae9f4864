/**
 * The start-up configuration of the sidecar: each value comes from its
 * environment variable if set, else from the YAML document, else from a
 * built-in default. Provider and host lists from the environment are
 * comma-separated (`_split_csv` / `_csv`). Reading the YAML file and parsing
 * integers happen before this model: its inputs are already parsed.
 */
module SidecarConfig {
  import opened Wrappers
  import opened Text

  /** A list entry as the sidecar stores it: stripped, then lower-cased. */
  function Clean(s: string): (r: string)
    ensures IsTrimmed(r) && IsLower(r) && |r| <= |s|
  {
    LowerProperties(Strip(s));
    Lower(Strip(s))
  }

  /** What every entry of a parsed CSV list looks like. */
  predicate IsCsvToken(x: string) {
    x != "" && IsTrimmed(x) && IsLower(x) && ',' !in x
  }

  /** The comprehension `[s.strip().lower() for s in pieces if s.strip()]`. */
  function CleanNonEmpty(pieces: seq<string>): (r: seq<string>)
    requires forall i :: 0 <= i < |pieces| ==> ',' !in pieces[i]
    ensures forall i :: 0 <= i < |r| ==> IsCsvToken(r[i])
    ensures |r| <= |pieces|
  {
    if pieces == [] then []
    else
      var rest := CleanNonEmpty(pieces[1..]);
      if Strip(pieces[0]) == "" then rest
      else
        CleanToken(pieces[0]);
        TokensCons(Clean(pieces[0]), rest);
        [Clean(pieces[0])] + rest
  }

  lemma TokensCons(x: string, rest: seq<string>)
    requires IsCsvToken(x) && forall i :: 0 <= i < |rest| ==> IsCsvToken(rest[i])
    ensures forall i :: 0 <= i < |[x] + rest| ==> IsCsvToken(([x] + rest)[i])
  {
    forall i | 0 <= i < |[x] + rest| ensures IsCsvToken(([x] + rest)[i]) {
      if i > 0 {
        assert ([x] + rest)[i] == rest[i - 1];
      }
    }
  }

  /** A comma-free piece that is not blank cleans to a CSV token. */
  lemma CleanToken(p: string)
    requires ',' !in p && Strip(p) != ""
    ensures IsCsvToken(Clean(p))
  {
    StripCut(p);
    var lead :| CutFrom(p, Strip(p), lead);
    CutKeepsAbsent(p, Strip(p), lead, ',');
    LowerProperties(Strip(p));
  }

  /** A character absent from `s` is absent from any piece cut from it. */
  lemma CutKeepsAbsent(s: string, r: string, lead: int, c: char)
    requires CutFrom(s, r, lead) && c !in s
    ensures c !in r
  {
    forall i | 0 <= i < |r| ensures r[i] != c {
      assert r[i] == s[lead + i];
    }
  }

  /** No piece of a split on one character holds that character. */
  lemma {:induction false} SplitPiecesAvoid(s: string, c: char)
    ensures forall i :: 0 <= i < |SplitOn(s, [c])| ==> c !in SplitOn(s, [c])[i]
    decreases |s|
  {
    if [c] <= s {
      SplitPiecesAvoid(s[1..], c);
    } else if s != [] {
      SplitPiecesAvoid(s[1..], c);
      assert s[0] != c;
    }
  }

  /**
   * `_split_csv(v)` (`_csv(v)` in the other variant): split on commas, strip
   * and lower-case each piece, drop the empty ones. `None` and `""` give `[]`.
   */
  function SplitCsv(v: Option<string>): (r: seq<string>)
    ensures v == None || v == Some("") ==> r == []
    ensures forall i :: 0 <= i < |r| ==> IsCsvToken(r[i])
  {
    var s := v.GetOr("");
    SplitPiecesAvoid(s, ',');
    if s == "" then
      assert SplitOn(s, ",") == [""];
      assert Strip("") == "" by { StripUnique("", "", ""); }
      CleanNonEmpty(SplitOn(s, ","))
    else
      CleanNonEmpty(SplitOn(s, ","))
  }

  /** A single piece is kept, cleaned, exactly when it is not blank. */
  lemma CleanNonEmptyOne(p: string)
    requires ',' !in p
    ensures CleanNonEmpty([p]) == (if Strip(p) == "" then [] else [Clean(p)])
  {
    assert [p][1..] == [];
  }

  /**
   * The comprehension works piece by piece: it distributes over
   * concatenation, so the kept entries stay in input order.
   */
  lemma {:induction false} CleanNonEmptyAppend(a: seq<string>, b: seq<string>)
    requires forall i :: 0 <= i < |a| ==> ',' !in a[i]
    requires forall i :: 0 <= i < |b| ==> ',' !in b[i]
    ensures CleanNonEmpty(a + b) == CleanNonEmpty(a) + CleanNonEmpty(b)
    decreases |a|
  {
    if a == [] {
      assert a + b == b;
    } else {
      var ab := a + b;
      assert ab[0] == a[0] && ab[1..] == a[1..] + b;
      CleanNonEmptyAppend(a[1..], b);
    }
  }

  /** A value without a comma is one piece: `[Clean(a)]`, or `[]` when it is blank. */
  lemma SplitCsvPiece(a: string)
    requires ',' !in a
    ensures SplitCsv(Some(a)) == (if Strip(a) == "" then [] else [Clean(a)])
  {
    SplitFreePiece(a, ",", "");
    CleanNonEmptyOne(a);
  }

  /**
   * The entries of the text before the first comma come first, then those of
   * the rest: with `SplitCsvPiece` this fixes `SplitCsv` on every input.
   */
  lemma SplitCsvComma(a: string, b: string)
    requires ',' !in a
    ensures SplitCsv(Some(a + "," + b)) == SplitCsv(Some(a)) + SplitCsv(Some(b))
  {
    SplitFreePiece(a, ",", b);
    SplitPiecesAvoid(b, ',');
    CleanNonEmptyAppend([a], SplitOn(b, ","));
    SplitCsvPiece(a);
  }

  /** A CSV token is kept as it is by `Clean`, and is not blank. */
  lemma TokenClean(x: string)
    requires IsCsvToken(x)
    ensures Strip(x) == x && Clean(x) == x
  {
    StripTrimmed(x);
    LowerFixed(x);
  }

  /** The comprehension keeps a list of CSV tokens as it is. */
  lemma {:induction false} CleanNonEmptyOfTokens(xs: seq<string>)
    requires forall i :: 0 <= i < |xs| ==> IsCsvToken(xs[i]) && ',' !in xs[i]
    ensures CleanNonEmpty(xs) == xs
    decreases |xs|
  {
    if xs != [] {
      CleanNonEmptyOfTokens(xs[1..]);
      TokenClean(xs[0]);
      HeadTail(xs);
    }
  }


  /**
   * Round trip: a list of CSV tokens written comma-separated parses back to
   * the same list, same order, repeats kept.
   */
  lemma SplitCsvJoin(xs: seq<string>)
    requires forall i :: 0 <= i < |xs| ==> IsCsvToken(xs[i])
    ensures SplitCsv(Some(Join(xs, ","))) == xs
  {
    if xs != [] {
      SplitJoin(xs, ",");
      CleanNonEmptyOfTokens(xs);
    }
  }

  /** Parsing is idempotent: writing a parsed list back out and parsing it again changes nothing. */
  lemma SplitCsvIdempotent(v: Option<string>)
    ensures SplitCsv(Some(Join(SplitCsv(v), ","))) == SplitCsv(v)
  {
    SplitCsvJoin(SplitCsv(v));
  }

  /** `[s.strip().lower() for s in xs]`, empty entries kept. */
  function CleanAll(xs: seq<string>): (r: seq<string>)
    ensures |r| == |xs| && forall i :: 0 <= i < |xs| ==> r[i] == Clean(xs[i])
    ensures forall i :: 0 <= i < |r| ==> IsTrimmed(r[i]) && IsLower(r[i])
  {
    var r := seq(|xs|, i requires 0 <= i < |xs| => Clean(xs[i]));
    forall i | 0 <= i < |r| ensures IsTrimmed(r[i]) && IsLower(r[i]) {
      LowerProperties(Strip(xs[i]));
    }
    r
  }

  /** Every entry is stripped and lower-cased. */
  predicate CleanList(xs: seq<string>) {
    forall i :: 0 <= i < |xs| ==> IsTrimmed(xs[i]) && IsLower(xs[i])
  }

  /**
   * A list setting: the environment CSV if it parses to a non-empty list;
   * otherwise the YAML list if present and non-empty, each entry stripped and
   * lower-cased but empty entries kept; otherwise the default list.
   */
  function ResolveList(env: Option<string>, yaml: Option<seq<string>>, default: seq<string>): (r: seq<string>)
    ensures SplitCsv(env) != [] ==> r == SplitCsv(env)
    ensures SplitCsv(env) == [] && yaml.Some? && yaml.value != [] ==> r == CleanAll(yaml.value)
    ensures SplitCsv(env) == [] && (yaml.None? || yaml.value == []) ==> r == CleanAll(default)
    ensures CleanList(r)
  {
    var fromEnv := SplitCsv(env);
    if fromEnv != [] then fromEnv
    else
      CleanAll(if yaml.Some? && yaml.value != [] then yaml.value else default)
  }

  /** `os.getenv(NAME, yaml.get(key, default))`: a set variable wins even when empty. */
  function ResolveScalar<T>(env: Option<T>, yaml: Option<T>, default: T): (r: T)
    ensures env.Some? ==> r == env.value
    ensures env.None? && yaml.Some? ==> r == yaml.value
    ensures env.None? && yaml.None? ==> r == default
  {
    match env
    case Some(v) => v
    case None => yaml.GetOr(default)
  }

  /** The environment variables the sidecar reads, `None` when unset. */
  datatype Env = Env(
    serviceName: Option<string>,
    buildVersion: Option<string>,
    port: Option<int>,
    allowProviders: Option<string>,
    denyProviders: Option<string>,
    allowedHosts: Option<string>,
    healthOverall: Option<int>,
    dns: Option<int>,
    connect: Option<int>,
    read: Option<int>,
    openaiApiKey: Option<string>,
    groqApiKey: Option<string>)

  /** The YAML keys the sidecar reads, `None` when missing. */
  datatype YamlDoc = YamlDoc(
    serviceName: Option<string>,
    buildVersion: Option<string>,
    port: Option<int>,
    providersAllow: Option<seq<string>>,
    providersDeny: Option<seq<string>>,
    networkAllowedHosts: Option<seq<string>>,
    healthOverall: Option<int>,
    dns: Option<int>,
    connect: Option<int>,
    read: Option<int>)

  datatype Config = Config(
    serviceName: string,
    buildVersion: string,
    port: int,
    allowProviders: seq<string>,
    denyProviders: seq<string>,
    allowedHosts: seq<string>,
    healthOverall: int,
    dns: int,
    connect: int,
    read: int,
    openaiApiKey: string,
    groqApiKey: string)

  const DefaultAllow: seq<string> := ["openai", "groq"]
  const DefaultDeny: seq<string> := ["openrouter", "anthropic", "together", "replicate", "cohere", "gemini"]
  const DefaultHosts: seq<string> := ["api.openai.com", "api.groq.com"]

  /**
   * The module-level configuration block of the sidecar: a set environment
   * variable wins, every list holds clean entries, and the API keys come
   * from the environment alone.
   */
  function LoadConfig(env: Env, doc: YamlDoc): (c: Config)
    ensures CleanList(c.allowProviders) && CleanList(c.denyProviders) && CleanList(c.allowedHosts)
    ensures SplitCsv(env.allowProviders) != [] ==> c.allowProviders == SplitCsv(env.allowProviders)
    ensures SplitCsv(env.denyProviders) != [] ==> c.denyProviders == SplitCsv(env.denyProviders)
    ensures SplitCsv(env.allowedHosts) != [] ==> c.allowedHosts == SplitCsv(env.allowedHosts)
    ensures env.serviceName.Some? ==> c.serviceName == env.serviceName.value
    ensures env.port.Some? ==> c.port == env.port.value
    ensures env.connect.Some? ==> c.connect == env.connect.value
    ensures c.openaiApiKey != "" ==> env.openaiApiKey == Some(c.openaiApiKey)
    ensures c.groqApiKey != "" ==> env.groqApiKey == Some(c.groqApiKey)
    ensures c.allowProviders == ResolveList(env.allowProviders, doc.providersAllow, DefaultAllow)
    ensures c.denyProviders == ResolveList(env.denyProviders, doc.providersDeny, DefaultDeny)
    ensures c.allowedHosts == ResolveList(env.allowedHosts, doc.networkAllowedHosts, DefaultHosts)
    ensures c.serviceName == ResolveScalar(env.serviceName, doc.serviceName, "agent0-lite")
    ensures c.buildVersion == ResolveScalar(env.buildVersion, doc.buildVersion, "phase1")
    ensures c.port == ResolveScalar(env.port, doc.port, 4040)
    ensures c.healthOverall == ResolveScalar(env.healthOverall, doc.healthOverall, 8)
    ensures c.dns == ResolveScalar(env.dns, doc.dns, 2)
    ensures c.connect == ResolveScalar(env.connect, doc.connect, 3)
    ensures c.read == ResolveScalar(env.read, doc.read, 5)
    ensures c.openaiApiKey == env.openaiApiKey.GetOr("") && c.groqApiKey == env.groqApiKey.GetOr("")
  {
    var openaiKey, groqKey := env.openaiApiKey.GetOr(""), env.groqApiKey.GetOr("");
    assert openaiKey != "" ==> env.openaiApiKey == Some(openaiKey);
    assert groqKey != "" ==> env.groqApiKey == Some(groqKey);
    var allow := ResolveList(env.allowProviders, doc.providersAllow, DefaultAllow);
    var deny := ResolveList(env.denyProviders, doc.providersDeny, DefaultDeny);
    var hosts := ResolveList(env.allowedHosts, doc.networkAllowedHosts, DefaultHosts);
    Config(
      ResolveScalar(env.serviceName, doc.serviceName, "agent0-lite"),
      ResolveScalar(env.buildVersion, doc.buildVersion, "phase1"),
      ResolveScalar(env.port, doc.port, 4040),
      allow, deny, hosts,
      ResolveScalar(env.healthOverall, doc.healthOverall, 8),
      ResolveScalar(env.dns, doc.dns, 2),
      ResolveScalar(env.connect, doc.connect, 3),
      ResolveScalar(env.read, doc.read, 5),
      openaiKey, groqKey)
  }

  /** An entry that is already stripped and lower-cased is kept as it is by `Clean`. */
  lemma CleanFixed(x: string)
    requires IsTrimmed(x) && IsLower(x)
    ensures Clean(x) == x
  {
    StripTrimmed(x);
    LowerFixed(x);
  }

  /** A list whose every entry is already clean is kept as it is by `CleanAll`. */
  lemma CleanAllFixed(xs: seq<string>)
    requires forall x :: x in xs ==> Clean(x) == x
    ensures CleanAll(xs) == xs
  {
    forall i | 0 <= i < |xs| ensures Clean(xs[i]) == xs[i] {
      assert xs[i] in xs;
    }
  }

  lemma DefaultAllowClean()
    ensures CleanAll(DefaultAllow) == DefaultAllow
  {
    forall x | x in DefaultAllow ensures Clean(x) == x { IsLowerByMembers(x); CleanFixed(x); }
    CleanAllFixed(DefaultAllow);
  }

  lemma DefaultDenyClean()
    ensures CleanAll(DefaultDeny) == DefaultDeny
  {
    forall x | x in DefaultDeny ensures Clean(x) == x { IsLowerByMembers(x); CleanFixed(x); }
    CleanAllFixed(DefaultDeny);
  }

  lemma DefaultHostsClean()
    ensures CleanAll(DefaultHosts) == DefaultHosts
  {
    forall x | x in DefaultHosts ensures Clean(x) == x { IsLowerByMembers(x); CleanFixed(x); }
    CleanAllFixed(DefaultHosts);
  }

  /** With no environment variable and no YAML key set, every setting is the built-in default. */
  lemma LoadConfigDefaults()
    ensures LoadConfig(Env(None, None, None, None, None, None, None, None, None, None, None, None),
                       YamlDoc(None, None, None, None, None, None, None, None, None, None))
            == Config("agent0-lite", "phase1", 4040,
                      ["openai", "groq"],
                      ["openrouter", "anthropic", "together", "replicate", "cohere", "gemini"],
                      ["api.openai.com", "api.groq.com"],
                      8, 2, 3, 5, "", "")
  {
    assert SplitCsv(None) == [];
    DefaultAllowClean();
    DefaultDenyClean();
    DefaultHostsClean();
  }

  /** An empty environment variable is not a CSV list: the YAML list is used, entries kept even when blank. */
  lemma EmptyEnvListFallsBackToYaml(yaml: seq<string>, default: seq<string>)
    requires yaml != []
    ensures ResolveList(Some(""), Some(yaml), default) == CleanAll(yaml)
  {
  }
}
