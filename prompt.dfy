/** Prompt construction for the local language model and the size checks
    around it. */
module Prompt {
  import opened Wrappers
  import Config
  import opened CollectionTypes

  /** buildSystemPrompt: the fixed instructions. */
  const SystemPrompt :=
    "You are a system analysis assistant. Your task is to analyze system information and provide a concise, factual summary.\n"
    + "\n"
    + "CRITICAL RULES:\n"
    + "1. Use ONLY the facts provided in the SYSTEM FACTS section\n"
    + "2. Do NOT invent, assume, or hallucinate any information\n"
    + "3. If a fact is \"unknown\", acknowledge it as unknown\n"
    + "4. Be concise: summary must be exactly 3 lines maximum\n"
    + "5. Only identify risks if clear thresholds are exceeded\n"
    + "6. Provide actionable recommendations, not generic advice\n"
    + "\n"
    + "ANALYSIS GUIDELINES:\n"
    + "- Focus on hardware, network, and user configuration\n"
    + "- Identify potential security concerns (multiple admin accounts, unusual network configs)\n"
    + "- Note any deprecated OS versions or missing updates\n"
    + "- Highlight unusual user activity patterns\n"
    + "- Keep technical language clear but not overly simplified"

  /** buildOutputFormatInstructions: the section layout the parser expects. */
  const OutputFormat :=
    "OUTPUT FORMAT (follow exactly):\n"
    + "\n"
    + "SUMMARY:\n"
    + "- [Line 1: System identification - OS, hostname, hardware]\n"
    + "- [Line 2: Key characteristics - users, network, notable configurations]\n"
    + "- [Line 3: Overall status assessment]\n"
    + "\n"
    + "RISKS:\n"
    + "- [Only include if clear risk detected, max 3 bullets]\n"
    + "- [Each risk must reference specific facts from input]\n"
    + "- [Format: \"Risk description (Evidence: specific fact)\"]\n"
    + "\n"
    + "ACTIONS:\n"
    + "- [Only include if actionable recommendation exists, max 2 items]\n"
    + "- [Must be specific and directly related to detected risks]\n"
    + "- [Format: \"Action to take based on specific finding\"]\n"
    + "\n"
    + "Generate your analysis now:"

  const FactsHeading := "SYSTEM FACTS:\n"
  const Gap := "\n\n"

  /** PromptBuilder holds only its system prompt, fixed at construction. */
  datatype PromptBuilder = PromptBuilder(systemPrompt: string)

  function NewPromptBuilder(): (pb: PromptBuilder)
    ensures pb.systemPrompt == SystemPrompt
  {
    PromptBuilder(SystemPrompt)
  }

  datatype PromptError = NilFacts | MarshalFailed

  /** A prompt assembled from its parts: the instructions, a blank line, the
      facts under their heading, a blank line, the output format. */
  function Assemble(systemPrompt: string, factsJSON: string, format: string): string {
    systemPrompt + Gap + FactsHeading + factsJSON + Gap + format
  }

  /** PromptBuilder.BuildPrompt. json.MarshalIndent(facts, "", "  ") is the
      parameter `marshalIndent`; None stands for its error. */
  method BuildPrompt(pb: PromptBuilder, facts: Option<Facts>, marshalIndent: Facts -> Option<string>)
    returns (r: Result<string, PromptError>)
    ensures facts.None? ==> r == Err(NilFacts)
    ensures facts.Some? && marshalIndent(facts.value).None? ==> r == Err(MarshalFailed)
    ensures facts.Some? && marshalIndent(facts.value).Some? ==>
              r == Ok(Assemble(pb.systemPrompt, marshalIndent(facts.value).value, OutputFormat))
  {
    if facts.None? {
      return Err(NilFacts);
    }
    var factsJSON := marshalIndent(facts.value);
    if factsJSON.None? {
      return Err(MarshalFailed);
    }
    var prompt := "";
    prompt := prompt + pb.systemPrompt;
    assert prompt == pb.systemPrompt;
    prompt := prompt + Gap;
    prompt := prompt + FactsHeading;
    prompt := prompt + factsJSON.value;
    prompt := prompt + Gap;
    prompt := prompt + OutputFormat;
    return Ok(prompt);
  }

  /** Where the facts start in a prompt whose instructions have the given
      length. */
  function FactsStart(systemPromptLength: nat): nat {
    systemPromptLength + |Gap| + |FactsHeading|
  }

  /** The facts JSON read back out of a prompt, given the lengths of the
      instructions and of the output format. */
  function ExtractFacts(prompt: string, systemPromptLength: nat, formatLength: nat): string
    requires FactsStart(systemPromptLength) + |Gap| + formatLength <= |prompt|
  {
    prompt[FactsStart(systemPromptLength)..|prompt| - |Gap| - formatLength]
  }

  /** The prompt starts with the instructions and the facts heading, ends with
      the output format, and the facts read back from between them are the
      facts put in. */
  lemma PromptLayout(systemPrompt: string, factsJSON: string, format: string)
    ensures var p := Assemble(systemPrompt, factsJSON, format);
      |p| == |systemPrompt| + |factsJSON| + 2 * |Gap| + |FactsHeading| + |format|
      && p[..|systemPrompt|] == systemPrompt
      && p[|systemPrompt|..FactsStart(|systemPrompt|)] == Gap + FactsHeading
      && p[|p| - |format|..] == format
      && ExtractFacts(p, |systemPrompt|, |format|) == factsJSON
  {
    var p := Assemble(systemPrompt, factsJSON, format);
    var s := FactsStart(|systemPrompt|);
    var middle := Gap + FactsHeading;
    var tail := Gap + format;
    assert p == systemPrompt + middle + factsJSON + tail;
    assert p[..|systemPrompt|] == systemPrompt;
    assert p[|systemPrompt|..s] == middle;
    assert p[s..s + |factsJSON|] == factsJSON;
    assert p[|p| - |format|..] == format;
  }

  /** The same instructions with different facts give different prompts. */
  lemma PromptDeterminesFacts(systemPrompt: string, j1: string, j2: string, format: string)
    ensures Assemble(systemPrompt, j1, format) == Assemble(systemPrompt, j2, format) <==> j1 == j2
  {
    if Assemble(systemPrompt, j1, format) == Assemble(systemPrompt, j2, format) {
      PromptLayout(systemPrompt, j1, format);
      PromptLayout(systemPrompt, j2, format);
    }
  }

  // ---- Size checks --------------------------------------------------------------

  /** EstimateTokenCount: about four bytes per token, rounded down. */
  function EstimateTokenCount(prompt: string): (n: nat)
    ensures 4 * n <= |prompt| < 4 * n + 4
  {
    |prompt| / 4
  }

  lemma TokenCountExamples()
    ensures EstimateTokenCount("") == 0
    ensures EstimateTokenCount("test") == 1
    ensures EstimateTokenCount("test text here") == 3
    ensures EstimateTokenCount("a b c d") == 1
  {
  }

  /** The TinyLlama context window, in tokens. */
  const ContextWindow := 2048

  datatype TokenError = PromptTooLarge(required: Config.Int64, available: int)

  /** ValidateTokenCount: the estimated prompt tokens plus the reserved output
      tokens must fit the context window. The sum is Go's 64-bit `int`
      addition and wraps on overflow. A Go string's length fits in an `int`. */
  function ValidateTokenCount(prompt: string, maxTokens: Config.Int64): (r: Outcome<TokenError>)
    requires |prompt| <= Config.MaxInt64
    ensures r.Fail? <==> Config.Wrap64(EstimateTokenCount(prompt) + maxTokens) > ContextWindow
    ensures r.Fail? ==> r.error.available == ContextWindow
  {
    var required := Config.Wrap64(EstimateTokenCount(prompt) + maxTokens);
    if required > ContextWindow then Fail(PromptTooLarge(required, ContextWindow)) else Pass
  }

  /** With a reservation in the range the configuration allows, the check
      passes exactly when the prompt is shorter than 4 * (2049 - maxTokens)
      bytes. */
  lemma TokenCheckByLength(prompt: string, maxTokens: Config.Int64)
    requires |prompt| <= Config.MaxInt64
    requires 1 <= maxTokens <= 2048
    ensures ValidateTokenCount(prompt, maxTokens).Pass? <==> |prompt| < 4 * (ContextWindow + 1 - maxTokens)
    ensures ValidateTokenCount(prompt, maxTokens).Fail? ==>
      ValidateTokenCount(prompt, maxTokens).error.required == |prompt| / 4 + maxTokens
  {
  }

  /** Outside that range the 64-bit sum can wrap: the largest reservation lets
      any prompt of at least 4 bytes through. */
  lemma HugeReservationWraps(prompt: string)
    requires 4 <= |prompt| <= Config.MaxInt64
    ensures ValidateTokenCount(prompt, Config.MaxInt64).Pass?
  {
    var n := EstimateTokenCount(prompt);
    assert 1 <= n;
    assert Config.Wrap64(n + Config.MaxInt64) == n + Config.MaxInt64 - 0x1_0000_0000_0000_0000;
  }

  // ---- TruncateFacts ------------------------------------------------------------

  /** The most entries TruncateFacts keeps in each truncated list. */
  const ListCap := 10

  function Truncated<T>(xs: seq<T>): (r: seq<T>)
    ensures r <= xs && |r| == if |xs| > ListCap then ListCap else |xs|
  {
    if |xs| > ListCap then xs[..ListCap] else xs
  }

  /** PromptBuilder.TruncateFacts: a copy of `facts` whose Users, WiFiSSIDs and
      HomeDirs keep at most their first 10 entries. Facts is a value, so the
      argument is unchanged. */
  function TruncateFacts(facts: Facts): (t: Facts)
    ensures t.users <= facts.users && |t.users| == if |facts.users| > 10 then 10 else |facts.users|
    ensures t.wifiSSIDs <= facts.wifiSSIDs && |t.wifiSSIDs| == if |facts.wifiSSIDs| > 10 then 10 else |facts.wifiSSIDs|
    ensures t.homeDirs <= facts.homeDirs && |t.homeDirs| == if |facts.homeDirs| > 10 then 10 else |facts.homeDirs|
    ensures t.(users := facts.users, wifiSSIDs := facts.wifiSSIDs, homeDirs := facts.homeDirs) == facts
  {
    facts.(users := Truncated(facts.users), wifiSSIDs := Truncated(facts.wifiSSIDs), homeDirs := Truncated(facts.homeDirs))
  }

  /** Truncating twice is truncating once. */
  lemma TruncateIdempotent(facts: Facts)
    ensures TruncateFacts(TruncateFacts(facts)) == TruncateFacts(facts)
  {
  }

  /** Facts within the caps are returned as they are. */
  lemma TruncateSmallUnchanged(facts: Facts)
    requires |facts.users| <= 10 && |facts.wifiSSIDs| <= 10 && |facts.homeDirs| <= 10
    ensures TruncateFacts(facts) == facts
  {
  }

  /** Truncation keeps the fields Validate checks, so it never turns valid
      facts invalid. */
  lemma TruncatePreservesValidity(facts: Facts)
    ensures CollectionTypes.Validate(TruncateFacts(facts)) == CollectionTypes.Validate(facts)
  {
  }
}
