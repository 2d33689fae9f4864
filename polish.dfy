/**
 * `polish_vs_bias_prompt`: the deterministic rewrite of a validated
 * `vs_bias_prompt` contract. The engineered prompt is wrapped between a header
 * naming the bias dimensions and a fixed clarification footer; the other
 * content fields are copied, and a fixed report is attached. The UTC clock
 * reading is a parameter.
 */
module VsBiasPolish {
  import opened Wrappers
  import opened Text
  import opened VsBiasContract

  datatype PolishedArtifact = PolishedArtifact(
    userQuery: string,
    engineeredPrompt: string,
    notesForLite: Option<string>,
    biasDimensions: seq<string>)

  datatype PolishReport = PolishReport(
    summary: string,
    details: seq<string>,
    artifactType: string,
    timestamp: string)

  datatype PolishOutput = PolishOutput(polishedArtifact: PolishedArtifact, polishReport: PolishReport)

  const HeaderPrefix := "### BIAS DIMENSIONS TO ANALYZE\n- Target dimensions: "
  const DimensionSeparator := ", "

  const Footer :=
    "\n\n### CLARIFICATION FOR THE MODEL\n"
    + "For each generated response variant:\n"
    + "- Explicitly discuss how it may reflect bias across the listed dimensions.\n"
    + "- Estimate the probability that a production model would output it.\n"
    + "- Highlight which dimensions are most affected and why.\n"

  const Summary := "Added explicit bias dimensions header and clarification block."

  const Details: seq<string> := [
    "Prepended a markdown header listing all bias dimensions.",
    "Appended explicit instructions for how to handle each dimension.",
    "Preserved original user query and bias dimensions."
  ]

  /** The header block: the dimensions `", "`-joined, in order, repeats kept. */
  function Header(dims: seq<string>): string {
    HeaderPrefix + Join(dims, DimensionSeparator) + "\n\n"
  }

  /** The improved prompt: header, then the stripped original, then the footer. */
  function PolishPrompt(dims: seq<string>, prompt: string): string {
    Header(dims) + Strip(prompt) + Footer
  }

  /** The three parts of `a + m + b` can be cut out again by length. */
  lemma ConcatParts(a: string, m: string, b: string)
    ensures var s := a + m + b;
            && |s| == |a| + |m| + |b| && a <= s
            && s[|a|..|s| - |b|] == m && s[|s| - |b|..] == b
  {
    var s := a + m + b;
    assert s[|a|..|s| - |b|] == m;
    assert s[|s| - |b|..] == b;
  }

  /**
   * `polish_vs_bias_prompt(contract)`, with `utcIso` standing for
   * `datetime.utcnow().isoformat()`.
   */
  function Polish(contract: Contract, utcIso: string): (r: PolishOutput)
    ensures r.polishedArtifact.engineeredPrompt
            == Header(contract.content.biasDimensions) + Strip(contract.content.engineeredPrompt) + Footer
    ensures r.polishedArtifact.userQuery == contract.content.userQuery
    ensures r.polishedArtifact.notesForLite == contract.content.notesForLite
    ensures r.polishedArtifact.biasDimensions == contract.content.biasDimensions
    ensures r.polishReport == PolishReport(Summary, Details, contract.artifactType, utcIso + "Z")
  {
    var content := contract.content;
    var artifact := PolishedArtifact(
      content.userQuery,
      PolishPrompt(content.biasDimensions, content.engineeredPrompt),
      content.notesForLite,
      content.biasDimensions);
    var report := PolishReport(Summary, Details, contract.artifactType, utcIso + "Z");
    PolishOutput(artifact, report)
  }

  // ---------------------------------------------------------------- inverse

  /** The prefix of `s` before its first line break (all of `s` when there is none). */
  function FirstLine(s: string): (r: string)
    ensures r <= s
    ensures '\n' !in r
    ensures |r| < |s| ==> s[|r|] == '\n'
  {
    if s == [] || s[0] == '\n' then [] else [s[0]] + FirstLine(s[1..])
  }

  /**
   * Cuts `pre` and `foot` off `framed`, then splits the middle at its first
   * line break into a line and, after a blank line, the body. `None` when the
   * text does not have that shape.
   */
  function Unframe(pre: string, foot: string, framed: string): Option<(string, string)> {
    if |framed| < |pre| + |foot| || !(pre <= framed) || framed[|framed| - |foot|..] != foot then None
    else
      var middle := framed[|pre|..|framed| - |foot|];
      var line := FirstLine(middle);
      if |middle| < |line| + 2 || middle[|line|..|line| + 2] != "\n\n" then None
      else Some((line, middle[|line| + 2..]))
  }

  /**
   * Reads a polished prompt back: the dimension list from the header line and
   * the original text between header and footer. `None` when the text does not
   * have the polished shape.
   */
  function Unpolish(polished: string): Option<(seq<string>, string)> {
    match Unframe(HeaderPrefix, Footer, polished)
    case None => None
    case Some((line, body)) => Some((SplitOn(line, DimensionSeparator), body))
  }

  lemma {:induction false} FirstLineOf(x: string, rest: string)
    requires '\n' !in x
    ensures FirstLine(x + "\n" + rest) == x
    decreases |x|
  {
    if x != [] {
      assert (x + "\n" + rest)[1..] == x[1..] + "\n" + rest;
      FirstLineOf(x[1..], rest);
      assert [x[0]] + x[1..] == x;
    }
  }

  /** No allowed dimension name holds a comma or a line break. */
  lemma ValidDimensionChars(d: string)
    requires d in ValidDimensions
    ensures ',' !in d && '\n' !in d
  {
  }

  /**
   * Round trip: from a polished prompt over allowed dimensions, the dimension
   * list (order and repeats included) and the stripped original prompt can be
   * read back exactly.
   */
  lemma UnpolishPolishPrompt(dims: seq<string>, prompt: string)
    requires 1 <= |dims|
    requires forall d :: d in dims ==> d in ValidDimensions
    ensures Unpolish(PolishPrompt(dims, prompt)) == Some((dims, Strip(prompt)))
  {
    var list := Join(dims, DimensionSeparator);
    HeaderList(dims);
    var body := Strip(prompt);
    UnpolishParts(list, body);
  }

  /** The joined dimension list holds no line break and splits back into the dimensions. */
  lemma HeaderList(dims: seq<string>)
    requires 1 <= |dims|
    requires forall d :: d in dims ==> d in ValidDimensions
    ensures '\n' !in Join(dims, DimensionSeparator)
    ensures SplitOn(Join(dims, DimensionSeparator), DimensionSeparator) == dims
  {
    assert DimensionSeparator[0] == ',' && '\n' !in DimensionSeparator;
    forall i | 0 <= i < |dims| ensures ',' !in dims[i] && '\n' !in dims[i] {
      assert dims[i] in dims;
      ValidDimensionChars(dims[i]);
    }
    JoinAvoids(dims, DimensionSeparator, '\n');
    SplitJoin(dims, DimensionSeparator);
  }

  /** `Unframe` cuts a line free of line breaks, and the body, out of any text of the framed shape. */
  lemma UnframeParts(pre: string, foot: string, list: string, body: string)
    requires '\n' !in list
    ensures Unframe(pre, foot, pre + list + "\n\n" + body + foot) == Some((list, body))
  {
    var middle := list + "\n\n" + body;
    assert pre + list + "\n\n" + body + foot == pre + middle + foot;
    ConcatParts(pre, middle, foot);
    assert middle == list + "\n" + ("\n" + body);
    FirstLineOf(list, "\n" + body);
    ConcatParts(list, "\n\n", body);
  }

  /** `Unpolish` reads the header list and the body back out of the polished shape. */
  lemma UnpolishParts(list: string, body: string)
    requires '\n' !in list
    ensures Unpolish(HeaderPrefix + list + "\n\n" + body + Footer)
            == Some((SplitOn(list, DimensionSeparator), body))
  {
    UnframeParts(HeaderPrefix, Footer, list, body);
  }

  /** The footer is the same for every contract. */
  lemma FooterIsConstant(c1: Contract, c2: Contract, t1: string, t2: string)
    ensures var p1 := Polish(c1, t1).polishedArtifact.engineeredPrompt;
            var p2 := Polish(c2, t2).polishedArtifact.engineeredPrompt;
            p1[|p1| - |Footer|..] == p2[|p2| - |Footer|..] == Footer
  {
  }

  /**
   * The polished artifact depends on the content alone: the context, the polish
   * instructions (`max_length` included), the request id and the clock never
   * change it.
   */
  lemma PolishDependsOnlyOnContent(c1: Contract, c2: Contract, t1: string, t2: string)
    requires c1.content == c2.content
    ensures Polish(c1, t1).polishedArtifact == Polish(c2, t2).polishedArtifact
  {
  }

  /** A validated contract's polished prompt gives back its dimensions and stripped prompt. */
  lemma PolishRoundTrip(c: Contract, utcIso: string)
    requires WellFormed(c)
    ensures Unpolish(Polish(c, utcIso).polishedArtifact.engineeredPrompt)
            == Some((c.content.biasDimensions, Strip(c.content.engineeredPrompt)))
  {
    UnpolishPolishPrompt(c.content.biasDimensions, c.content.engineeredPrompt);
  }

  /**
   * The text between header and footer is the original with only leading and
   * trailing whitespace removed, and stripping it again changes nothing.
   */
  lemma PolishedBodyIsStrippedOriginal(c: Contract, utcIso: string)
    ensures var p := Polish(c, utcIso).polishedArtifact.engineeredPrompt;
            var h := Header(c.content.biasDimensions);
            && |h| + |Footer| <= |p|
            && var body := p[|h|..|p| - |Footer|];
            && IsTrimmed(body) && Strip(body) == body
            && exists lead :: CutFrom(c.content.engineeredPrompt, body, lead)
  {
    var h, body := Header(c.content.biasDimensions), Strip(c.content.engineeredPrompt);
    ConcatParts(h, body, Footer);
    StripIdempotent(c.content.engineeredPrompt);
    StripCut(c.content.engineeredPrompt);
  }
}
