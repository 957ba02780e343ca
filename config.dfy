/** The agent configuration: its defaults, the bounds Validate enforces and
    the millisecond-to-Duration getters. */
module Config {
  import opened Wrappers
  import opened GoStrings

  const MinInt64 := -0x8000_0000_0000_0000
  const MaxInt64 := 0x7FFF_FFFF_FFFF_FFFF

  /** Go's `int` on the 64-bit targets the agent is built for. */
  type Int64 = x: int | MinInt64 <= x <= MaxInt64

  /** Two's-complement wrap-around of a mathematical integer to 64 bits. */
  function Wrap64(x: int): (r: Int64)
    ensures (r - x) % 0x1_0000_0000_0000_0000 == 0
    ensures MinInt64 <= x <= MaxInt64 ==> r == x
  {
    (x - MinInt64) % 0x1_0000_0000_0000_0000 + MinInt64
  }

  datatype CollectConfig = CollectConfig(
    extended: bool, wifiSSIDs: bool, hardwareIDs: bool, categoryTimeoutMs: Int64)

  datatype OutputConfig = OutputConfig(encrypt: bool, sign: bool, redact: seq<string>, directory: string)

  /** `temperature` is a Go float64, modelled as a real number. */
  datatype LLMConfig = LLMConfig(enabled: bool, maxTokens: Int64, temperature: real, modelPath: string)

  datatype PerformanceConfig = PerformanceConfig(
    maxGoroutines: Int64, phase1TimeoutMs: Int64, phase2TimeoutMs: Int64)

  datatype Config = Config(
    pii: bool, collect: CollectConfig, output: OutputConfig, llm: LLMConfig, performance: PerformanceConfig)

  /** Default(). */
  function Default(): (c: Config)
    ensures c.pii && c.output.sign && !c.output.encrypt && c.llm.enabled
    ensures c.collect.categoryTimeoutMs == 500 && c.llm.maxTokens == 160
    ensures c.performance == PerformanceConfig(8, 2000, 3000)
  {
    Config(
      true,
      CollectConfig(false, true, true, 500),
      OutputConfig(false, true, [], "out"),
      LLMConfig(true, 160, 0.1, "models/tinyllama-1.1b-q4.gguf"),
      PerformanceConfig(8, 2000, 3000))
  }

  datatype ValidationError = ValidationError(field: string, reason: string)

  const PositiveReason := "must be positive"
  const GoroutineReason := "must be between 1 and 32"
  const TokenReason := "must be between 1 and 2048"
  const TemperatureReason := "must be between 0.0 and 2.0"

  /** Every bound the configuration must meet. */
  predicate Valid(c: Config) {
    c.collect.categoryTimeoutMs > 0 && c.performance.phase1TimeoutMs > 0 && c.performance.phase2TimeoutMs > 0
    && 1 <= c.performance.maxGoroutines <= 32
    && 1 <= c.llm.maxTokens <= 2048
    && 0.0 <= c.llm.temperature <= 2.0
  }

  /** The checks in the order Validate runs them: whether each is violated,
      and the error it reports. */
  function Checks(c: Config): seq<(bool, ValidationError)> {
    [ (c.collect.categoryTimeoutMs <= 0, ValidationError("collect.category_timeout_ms", PositiveReason)),
      (c.performance.phase1TimeoutMs <= 0, ValidationError("performance.phase1_timeout_ms", PositiveReason)),
      (c.performance.phase2TimeoutMs <= 0, ValidationError("performance.phase2_timeout_ms", PositiveReason)),
      (c.performance.maxGoroutines < 1 || c.performance.maxGoroutines > 32,
       ValidationError("performance.max_goroutines", GoroutineReason)),
      (c.llm.maxTokens < 1 || c.llm.maxTokens > 2048, ValidationError("llm.max_tokens", TokenReason)),
      (c.llm.temperature < 0.0 || c.llm.temperature > 2.0, ValidationError("llm.temperature", TemperatureReason)) ]
  }

  predicate Violated(check: (bool, ValidationError)) {
    check.0
  }

  /** Config.Validate. */
  function Validate(c: Config): (r: Option<ValidationError>)
    ensures r.None? <==> Valid(c)
  {
    if c.collect.categoryTimeoutMs <= 0 then Some(ValidationError("collect.category_timeout_ms", PositiveReason))
    else if c.performance.phase1TimeoutMs <= 0 then Some(ValidationError("performance.phase1_timeout_ms", PositiveReason))
    else if c.performance.phase2TimeoutMs <= 0 then Some(ValidationError("performance.phase2_timeout_ms", PositiveReason))
    else if c.performance.maxGoroutines < 1 || c.performance.maxGoroutines > 32 then
      Some(ValidationError("performance.max_goroutines", GoroutineReason))
    else if c.llm.maxTokens < 1 || c.llm.maxTokens > 2048 then Some(ValidationError("llm.max_tokens", TokenReason))
    else if c.llm.temperature < 0.0 || c.llm.temperature > 2.0 then
      Some(ValidationError("llm.temperature", TemperatureReason))
    else None
  }

  /** Validate reports the first violated check of Checks, in order. */
  lemma ValidateReportsFirstViolation(c: Config)
    ensures match FirstWhere(Checks(c), Violated)
      case None => Validate(c).None?
      case Some(k) => Validate(c) == Some(Checks(c)[k].1)
  {
    var cs := Checks(c);
    var i := FirstWhere(cs, Violated);
    if i.Some? {
      var k := i.value;
      assert Violated(cs[k]);
      assert forall j :: 0 <= j < k ==> !Violated(cs[j]);
      if k >= 1 { assert !Violated(cs[0]); }
      if k >= 2 { assert !Violated(cs[1]); }
      if k >= 3 { assert !Violated(cs[2]); }
      if k >= 4 { assert !Violated(cs[3]); }
      if k >= 5 { assert !Violated(cs[4]); }
    } else {
      assert forall j :: 0 <= j < |cs| ==> !Violated(cs[j]);
      assert !Violated(cs[0]) && !Violated(cs[1]) && !Violated(cs[2]);
      assert !Violated(cs[3]) && !Violated(cs[4]) && !Violated(cs[5]);
    }
  }

  lemma DefaultIsValid()
    ensures Validate(Default()).None?
  {
  }

  /** A non-positive timeout is reported on its own field once the checks
      before it pass. */
  lemma NonPositiveTimeoutsRejected(c: Config)
    ensures c.collect.categoryTimeoutMs <= 0 ==>
      Validate(c) == Some(ValidationError("collect.category_timeout_ms", PositiveReason))
    ensures c.collect.categoryTimeoutMs > 0 && c.performance.phase1TimeoutMs <= 0 ==>
      Validate(c) == Some(ValidationError("performance.phase1_timeout_ms", PositiveReason))
    ensures c.collect.categoryTimeoutMs > 0 && c.performance.phase1TimeoutMs > 0 && c.performance.phase2TimeoutMs <= 0 ==>
      Validate(c) == Some(ValidationError("performance.phase2_timeout_ms", PositiveReason))
  {
  }

  /** With valid timeouts, a goroutine cap outside [1, 32] is the error, as for
      0, -5, 33 and 1000 on top of the defaults. */
  lemma GoroutineBoundRejected(c: Config, g: Int64)
    requires c.collect.categoryTimeoutMs > 0 && c.performance.phase1TimeoutMs > 0 && c.performance.phase2TimeoutMs > 0
    requires g < 1 || g > 32
    ensures Validate(c.(performance := c.performance.(maxGoroutines := g)))
      == Some(ValidationError("performance.max_goroutines", GoroutineReason))
  {
  }

  lemma GoroutineExamples()
    ensures forall g: Int64 | g in [0, -5, 33, 1000] ::
      Validate(Default().(performance := Default().performance.(maxGoroutines := g))).Some?
  {
  }

  /** A token cap outside [1, 2048] is rejected once the earlier checks pass. */
  lemma TokenBoundRejected(c: Config, t: Int64)
    requires c.collect.categoryTimeoutMs > 0 && c.performance.phase1TimeoutMs > 0 && c.performance.phase2TimeoutMs > 0
    requires 1 <= c.performance.maxGoroutines <= 32
    requires t < 1 || t > 2048
    ensures Validate(c.(llm := c.llm.(maxTokens := t))) == Some(ValidationError("llm.max_tokens", TokenReason))
  {
  }

  const Millisecond := 1_000_000

  /** time.Duration(ms) * time.Millisecond, a 64-bit nanosecond count that
      wraps on overflow. */
  function MsToDuration(ms: Int64): (d: Int64)
    ensures (d - ms * Millisecond) % 0x1_0000_0000_0000_0000 == 0
    ensures -(MaxInt64 / Millisecond) <= ms <= MaxInt64 / Millisecond ==> d == ms * Millisecond
  {
    Wrap64(ms * Millisecond)
  }

  function GetCategoryTimeout(c: Config): Int64 {
    MsToDuration(c.collect.categoryTimeoutMs)
  }

  function GetPhase1Timeout(c: Config): Int64 {
    MsToDuration(c.performance.phase1TimeoutMs)
  }

  function GetPhase2Timeout(c: Config): Int64 {
    MsToDuration(c.performance.phase2TimeoutMs)
  }

  /** The default timeouts are 500 ms, 2 s and 3 s. */
  lemma DefaultTimeouts()
    ensures GetCategoryTimeout(Default()) == 500 * Millisecond
    ensures GetPhase1Timeout(Default()) == 2000 * Millisecond
    ensures GetPhase2Timeout(Default()) == 3000 * Millisecond
  {
  }

  /** Validate only bounds the timeouts from below: a category timeout of
      9223372036855 ms passes, yet its Duration wraps to a negative value. */
  lemma LargeTimeoutWraps()
    ensures var c := Default().(collect := Default().collect.(categoryTimeoutMs := 9_223_372_036_855));
      Validate(c).None? && GetCategoryTimeout(c) < 0
  {
    var ms := 9_223_372_036_855;
    assert ms * Millisecond == 9_223_372_036_855_000_000;
    assert Wrap64(ms * Millisecond) == 9_223_372_036_855_000_000 - 0x1_0000_0000_0000_0000;
  }

  /** A timeout Validate accepts becomes a positive Duration of the same
      length whenever the multiplication fits in 64 bits. */
  lemma ValidTimeoutsPositive(c: Config)
    requires Valid(c)
    requires c.collect.categoryTimeoutMs <= MaxInt64 / Millisecond
    requires c.performance.phase1TimeoutMs <= MaxInt64 / Millisecond
    requires c.performance.phase2TimeoutMs <= MaxInt64 / Millisecond
    ensures GetCategoryTimeout(c) == c.collect.categoryTimeoutMs * Millisecond > 0
    ensures GetPhase1Timeout(c) == c.performance.phase1TimeoutMs * Millisecond > 0
    ensures GetPhase2Timeout(c) == c.performance.phase2TimeoutMs * Millisecond > 0
  {
  }

  const ErrorPrefix := "config validation failed: "

  /** ValidationError.Error(). */
  function ErrorText(e: ValidationError): (r: string)
    ensures |r| == |ErrorPrefix| + |e.field| + 3 + |e.reason|
    ensures HasPrefix(r, ErrorPrefix)
    ensures r[|ErrorPrefix|..|ErrorPrefix| + |e.field|] == e.field
    ensures HasSuffix(r, " - " + e.reason)
  {
    ErrorPrefix + e.field + " - " + e.reason
  }
}
