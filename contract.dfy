/**
 * The `vs_bias_prompt` payload contract: the pydantic (v1) models
 * `VSBiasContent`, `VSBiasContext`, `VSBiasPolishInstructions` and
 * `VSBiasPromptContract`, and `validate_vs_bias_prompt`, which builds the
 * contract from a payload or raises a validation error. The model reports at
 * most one violation per field, and for `bias_dimensions` only the first
 * unknown entry.
 */
module VsBiasContract {
  import opened Wrappers

  // ---------------------------------------------------------------- input

  /** A key of the JSON payload: missing, present with `null`, or present with a value. */
  datatype Field<T> = Absent | Null | Given(value: T)

  datatype ContentInput = ContentInput(
    userQuery: Field<string>,
    engineeredPrompt: Field<string>,
    notesForLite: Field<string>,
    biasDimensions: Field<seq<string>>)

  datatype ContextInput = ContextInput(
    appName: Field<string>,
    owner: Field<string>,
    constraints: Field<seq<string>>)

  datatype InstructionsInput = InstructionsInput(
    goals: Field<seq<string>>,
    allowedChanges: Field<seq<string>>,
    preserveIntent: Field<bool>,
    maxLength: Field<int>)

  datatype Payload = Payload(
    artifactType: Field<string>,
    content: Field<ContentInput>,
    context: Field<ContextInput>,
    polishInstructions: Field<InstructionsInput>,
    requestId: Field<string>)

  // ---------------------------------------------------------------- output

  datatype Content = Content(
    userQuery: string,
    engineeredPrompt: string,
    notesForLite: Option<string>,
    biasDimensions: seq<string>)

  datatype Context = Context(appName: string, owner: Option<string>, constraints: seq<string>)

  datatype PolishInstructions = PolishInstructions(
    goals: seq<string>,
    allowedChanges: seq<string>,
    preserveIntent: bool,
    maxLength: Option<int>)

  datatype Contract = Contract(
    artifactType: string,
    content: Content,
    context: Context,
    polishInstructions: PolishInstructions,
    requestId: Option<string>)

  /** One entry of a validation error: the path of the offending key and what is wrong with it. */
  datatype Violation = Violation(loc: seq<string>, kind: ViolationKind)

  datatype ViolationKind =
    | Missing
    | NoneNotAllowed
    | TooShort(minLength: nat)
    | TooLong(maxLength: nat)
    | TooFewItems(minItems: nat)
    | TooManyItems(maxItems: nat)
    | InvalidDimension(dimension: string)
    | UnexpectedArtifactType(got: string)

  // ---------------------------------------------------------------- constants

  const ArtifactTypeName := "vs_bias_prompt"

  const ValidDimensions: set<string> :=
    {"gender", "race", "age", "disability", "religion", "nationality", "sexual_orientation"}

  const DefaultDimensions: seq<string> := ["gender", "race", "age"]
  const DefaultAppName := "VS Bias Audit Builder"
  const DefaultGoals: seq<string> := ["Tighten structure", "Clarify bias dimensions", "Improve testability"]
  const DefaultAllowedChanges: seq<string> := ["wording", "structure", "examples"]
  const DefaultMaxLength := 1000

  // ---------------------------------------------------------------- declarative reading

  /** A required string key whose length must lie in [lo, hi]. */
  predicate RequiredStringOk(f: Field<string>, lo: nat, hi: nat) {
    f.Given? && lo <= |f.value| <= hi
  }

  predicate DimensionsOk(f: Field<seq<string>>) {
    f.Absent? || (f.Given? && 1 <= |f.value| <= 7 && forall d :: d in f.value ==> d in ValidDimensions)
  }

  predicate ContentOk(c: ContentInput) {
    && RequiredStringOk(c.userQuery, 10, 2000)
    && RequiredStringOk(c.engineeredPrompt, 50, 5000)
    && (c.notesForLite.Given? ==> |c.notesForLite.value| <= 1000)
    && DimensionsOk(c.biasDimensions)
  }

  predicate ContextOk(c: ContextInput) {
    !c.appName.Null? && !c.constraints.Null?
  }

  predicate InstructionsOk(p: InstructionsInput) {
    !p.goals.Null? && !p.allowedChanges.Null? && !p.preserveIntent.Null?
  }

  /** Every constraint the four models declare holds of the payload. */
  predicate Accepts(p: Payload) {
    && (p.artifactType.Absent? || p.artifactType == Given(ArtifactTypeName))
    && p.content.Given? && ContentOk(p.content.value)
    && p.context.Given? && ContextOk(p.context.value)
    && p.polishInstructions.Given? && InstructionsOk(p.polishInstructions.value)
  }

  /** A key with a default: the given value, or the default when the key is missing. */
  predicate Agrees<T(==)>(f: Field<T>, v: T, default: T) {
    (f.Given? ==> v == f.value) && (f.Absent? ==> v == default)
  }

  /** An `Optional` key: `None` when missing or null. */
  predicate AgreesOpt<T(==)>(f: Field<T>, v: Option<T>) {
    v == AsOption(f)
  }

  /** The contract carries exactly the payload's values, with the declared defaults filled in. */
  predicate Reflects(p: Payload, c: Contract) {
    && Agrees(p.artifactType, c.artifactType, ArtifactTypeName)
    && AgreesOpt(p.requestId, c.requestId)
    && p.content.Given? && p.context.Given? && p.polishInstructions.Given?
    && var ci, xi, pi := p.content.value, p.context.value, p.polishInstructions.value;
    && Some(c.content.userQuery) == AsOption(ci.userQuery)
    && Some(c.content.engineeredPrompt) == AsOption(ci.engineeredPrompt)
    && AgreesOpt(ci.notesForLite, c.content.notesForLite)
    && Agrees(ci.biasDimensions, c.content.biasDimensions, DefaultDimensions)
    && Agrees(xi.appName, c.context.appName, DefaultAppName)
    && AgreesOpt(xi.owner, c.context.owner)
    && Agrees(xi.constraints, c.context.constraints, [])
    && Agrees(pi.goals, c.polishInstructions.goals, DefaultGoals)
    && Agrees(pi.allowedChanges, c.polishInstructions.allowedChanges, DefaultAllowedChanges)
    && Agrees(pi.preserveIntent, c.polishInstructions.preserveIntent, true)
    && c.polishInstructions.maxLength == (match pi.maxLength
                                           case Absent => Some(DefaultMaxLength)
                                           case Null => None
                                           case Given(n) => Some(n))
  }

  function AsOption<T>(f: Field<T>): Option<T> {
    if f.Given? then Some(f.value) else None
  }

  /** What every validated contract satisfies. */
  predicate WellFormed(c: Contract) {
    && c.artifactType == ArtifactTypeName
    && 10 <= |c.content.userQuery| <= 2000
    && 50 <= |c.content.engineeredPrompt| <= 5000
    && (c.content.notesForLite.Some? ==> |c.content.notesForLite.value| <= 1000)
    && 1 <= |c.content.biasDimensions| <= 7
    && forall d :: d in c.content.biasDimensions ==> d in ValidDimensions
  }

  // ---------------------------------------------------------------- field validators

  /** The outcome of validating one key: its value, or the violations found there. */
  datatype Checked<T> = Valid(value: T) | Invalid(errors: seq<Violation>)

  function Errors<T>(c: Checked<T>): seq<Violation> {
    if c.Valid? then [] else c.errors
  }

  function RequiredString(loc: seq<string>, f: Field<string>, lo: nat, hi: nat): (r: Checked<string>)
    ensures r.Valid? <==> RequiredStringOk(f, lo, hi)
    ensures r.Valid? ==> f == Given(r.value)
    ensures r.Invalid? ==> |r.errors| == 1
  {
    match f
    case Absent => Invalid([Violation(loc, Missing)])
    case Null => Invalid([Violation(loc, NoneNotAllowed)])
    case Given(s) =>
      if |s| < lo then Invalid([Violation(loc, TooShort(lo))])
      else if |s| > hi then Invalid([Violation(loc, TooLong(hi))])
      else Valid(s)
  }

  function OptionalString(loc: seq<string>, f: Field<string>, hi: nat): (r: Checked<Option<string>>)
    ensures r.Valid? <==> (f.Given? ==> |f.value| <= hi)
    ensures r.Valid? ==> AgreesOpt(f, r.value)
    ensures r.Invalid? ==> |r.errors| == 1
  {
    match f
    case Given(s) => if |s| > hi then Invalid([Violation(loc, TooLong(hi))]) else Valid(Some(s))
    case _ => Valid(None)
  }

  /** A non-Optional key with a default: `null` is refused, a missing key takes the default. */
  function Defaulted<T>(loc: seq<string>, f: Field<T>, default: T): (r: Checked<T>)
    ensures r.Valid? <==> !f.Null?
    ensures r.Valid? ==> Agrees(f, r.value, default)
    ensures r.Invalid? ==> |r.errors| == 1
  {
    match f
    case Absent => Valid(default)
    case Null => Invalid([Violation(loc, NoneNotAllowed)])
    case Given(v) => Valid(v)
  }

  /**
   * The `for dim in v` loop of `validate_dimensions`: the first dimension
   * outside the allowed set, if there is one.
   */
  function FirstInvalidDimension(ds: seq<string>): (r: Option<string>)
    ensures r.None? <==> forall d :: d in ds ==> d in ValidDimensions
    ensures r.Some? ==> exists i :: 0 <= i < |ds| && ds[i] == r.value && r.value !in ValidDimensions
                                    && forall j :: 0 <= j < i ==> ds[j] in ValidDimensions
  {
    if ds == [] then None
    else if ds[0] !in ValidDimensions then Some(ds[0])
    else
      var r := FirstInvalidDimension(ds[1..]);
      assert forall d :: d in ds ==> d == ds[0] || d in ds[1..];
      if r.Some? then
        var i :| 0 <= i < |ds[1..]| && ds[1..][i] == r.value && r.value !in ValidDimensions
                 && forall j :: 0 <= j < i ==> ds[1..][j] in ValidDimensions;
        assert ds[i + 1] == r.value;
        r
      else r
  }

  /** `bias_dimensions`: default when missing; otherwise 1..7 items, then each one in the allowed set. */
  function Dimensions(loc: seq<string>, f: Field<seq<string>>): (r: Checked<seq<string>>)
    ensures r.Valid? <==> DimensionsOk(f)
    ensures r.Valid? ==> Agrees(f, r.value, DefaultDimensions)
    ensures r.Invalid? ==> |r.errors| == 1
  {
    match f
    case Absent => Valid(DefaultDimensions)
    case Null => Invalid([Violation(loc, NoneNotAllowed)])
    case Given(ds) =>
      if |ds| < 1 then Invalid([Violation(loc, TooFewItems(1))])
      else if |ds| > 7 then Invalid([Violation(loc, TooManyItems(7))])
      else match FirstInvalidDimension(ds)
        case Some(d) => Invalid([Violation(loc, InvalidDimension(d))])
        case None => Valid(ds)
  }

  // ---------------------------------------------------------------- models

  function ValidateContent(f: Field<ContentInput>): (r: Checked<Content>)
    ensures r.Valid? <==> f.Given? && ContentOk(f.value)
    ensures r.Invalid? ==> |r.errors| > 0
  {
    match f
    case Absent => Invalid([Violation(["content"], Missing)])
    case Null => Invalid([Violation(["content"], NoneNotAllowed)])
    case Given(c) =>
      var uq := RequiredString(["content", "user_query"], c.userQuery, 10, 2000);
      var ep := RequiredString(["content", "engineered_prompt"], c.engineeredPrompt, 50, 5000);
      var notes := OptionalString(["content", "notes_for_lite"], c.notesForLite, 1000);
      var dims := Dimensions(["content", "bias_dimensions"], c.biasDimensions);
      if uq.Valid? && ep.Valid? && notes.Valid? && dims.Valid? then
        Valid(Content(uq.value, ep.value, notes.value, dims.value))
      else
        Invalid(Errors(uq) + Errors(ep) + Errors(notes) + Errors(dims))
  }

  function ValidateContext(f: Field<ContextInput>): (r: Checked<Context>)
    ensures r.Valid? <==> f.Given? && ContextOk(f.value)
    ensures r.Invalid? ==> |r.errors| > 0
  {
    match f
    case Absent => Invalid([Violation(["context"], Missing)])
    case Null => Invalid([Violation(["context"], NoneNotAllowed)])
    case Given(c) =>
      var name := Defaulted(["context", "app_name"], c.appName, DefaultAppName);
      var cons := Defaulted(["context", "constraints"], c.constraints, []);
      if name.Valid? && cons.Valid? then
        Valid(Context(name.value, AsOption(c.owner), cons.value))
      else
        Invalid(Errors(name) + Errors(cons))
  }

  function ValidateInstructions(f: Field<InstructionsInput>): (r: Checked<PolishInstructions>)
    ensures r.Valid? <==> f.Given? && InstructionsOk(f.value)
    ensures r.Invalid? ==> |r.errors| > 0
  {
    match f
    case Absent => Invalid([Violation(["polish_instructions"], Missing)])
    case Null => Invalid([Violation(["polish_instructions"], NoneNotAllowed)])
    case Given(p) =>
      var goals := Defaulted(["polish_instructions", "goals"], p.goals, DefaultGoals);
      var changes := Defaulted(["polish_instructions", "allowed_changes"], p.allowedChanges, DefaultAllowedChanges);
      var keep := Defaulted(["polish_instructions", "preserve_intent"], p.preserveIntent, true);
      var maxLength := match p.maxLength
                       case Absent => Some(DefaultMaxLength)
                       case Null => None
                       case Given(n) => Some(n);
      if goals.Valid? && changes.Valid? && keep.Valid? then
        Valid(PolishInstructions(goals.value, changes.value, keep.value, maxLength))
      else
        Invalid(Errors(goals) + Errors(changes) + Errors(keep))
  }

  /** `artifact_type`: the literal `"vs_bias_prompt"`, which is also its default. */
  function ValidateArtifactType(f: Field<string>): (r: Checked<string>)
    ensures r.Valid? <==> f.Absent? || f == Given(ArtifactTypeName)
    ensures r.Valid? ==> r.value == ArtifactTypeName
  {
    match f
    case Absent => Valid(ArtifactTypeName)
    case Null => Invalid([Violation(["artifact_type"], NoneNotAllowed)])
    case Given(s) =>
      if s != ArtifactTypeName then Invalid([Violation(["artifact_type"], UnexpectedArtifactType(s))])
      else Valid(s)
  }

  /**
   * `validate_vs_bias_prompt(payload)`: the contract, or a non-empty list of
   * violations (at most one per field).
   * It succeeds exactly when the payload meets all declared constraints, and
   * then the contract carries the payload's own values with defaults filled in.
   */
  function Validate(p: Payload): (r: Result<Contract, seq<Violation>>)
    ensures r.Success? <==> Accepts(p)
    ensures r.Success? ==> WellFormed(r.value) && Reflects(p, r.value)
    ensures r.Failure? ==> |r.error| > 0
  {
    var at := ValidateArtifactType(p.artifactType);
    var content := ValidateContent(p.content);
    var context := ValidateContext(p.context);
    var instructions := ValidateInstructions(p.polishInstructions);
    if at.Valid? && content.Valid? && context.Valid? && instructions.Valid? then
      Success(Contract(at.value, content.value, context.value, instructions.value, AsOption(p.requestId)))
    else
      Failure(Errors(at) + Errors(content) + Errors(context) + Errors(instructions))
  }

  // ---------------------------------------------------------------- properties

  /**
   * A supplied dimension list of the right size with an unknown entry is
   * rejected, and the error names the first unknown entry.
   */
  lemma InvalidDimensionIsNamed(p: Payload, i: nat)
    requires p.content.Given? && p.content.value.biasDimensions.Given?
    requires var ds := p.content.value.biasDimensions.value;
             1 <= |ds| <= 7 && i < |ds| && ds[i] !in ValidDimensions
             && forall j :: 0 <= j < i ==> ds[j] in ValidDimensions
    ensures var ds := p.content.value.biasDimensions.value;
            Validate(p).Failure?
            && Violation(["content", "bias_dimensions"], InvalidDimension(ds[i])) in Validate(p).error
  {
    var ds := p.content.value.biasDimensions.value;
    var first := FirstInvalidDimension(ds);
    assert first.Some?;
    var k :| 0 <= k < |ds| && ds[k] == first.value && first.value !in ValidDimensions
             && forall j :: 0 <= j < k ==> ds[j] in ValidDimensions;
    assert k == i;
    var c := p.content.value;
    var dims := Dimensions(["content", "bias_dimensions"], c.biasDimensions);
    assert dims == Invalid([Violation(["content", "bias_dimensions"], InvalidDimension(ds[i]))]);
    var content := ValidateContent(p.content);
    var uq := RequiredString(["content", "user_query"], c.userQuery, 10, 2000);
    var ep := RequiredString(["content", "engineered_prompt"], c.engineeredPrompt, 50, 5000);
    var notes := OptionalString(["content", "notes_for_lite"], c.notesForLite, 1000);
    assert content.errors == Errors(uq) + Errors(ep) + Errors(notes) + Errors(dims);
    assert Violation(["content", "bias_dimensions"], InvalidDimension(ds[i])) in content.errors;
  }

  /** Omitting every optional key yields the declared defaults. */
  lemma DefaultsFilled(p: Payload)
    requires Accepts(p)
    requires p.artifactType.Absent? && p.requestId.Absent?
    requires p.content.value.notesForLite.Absent? && p.content.value.biasDimensions.Absent?
    requires p.context.value == ContextInput(Absent, Absent, Absent)
    requires p.polishInstructions.value == InstructionsInput(Absent, Absent, Absent, Absent)
    ensures var c := Validate(p).value;
            && c.artifactType == "vs_bias_prompt" && c.requestId.None?
            && c.content.notesForLite.None? && c.content.biasDimensions == ["gender", "race", "age"]
            && c.context == Context("VS Bias Audit Builder", None, [])
            && c.polishInstructions == PolishInstructions(
                 ["Tighten structure", "Clarify bias dimensions", "Improve testability"],
                 ["wording", "structure", "examples"], true, Some(1000))
  {
  }
}
