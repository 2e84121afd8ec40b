/**
 The pacing configuration: the interval of an LLM provider (backend/ai/llm_pacing.py,
 backend/ai/groq_config.py) and the pacing of a source (backend/source_rate_limits.py).
 Environment variables are parameters.
 */
module SourcePacing {
  import opened Options
  import opened ApiQueue

  // ---------------------------------------------------------------- LLM providers

  function EffectiveLimit(limit: int, headroomPct: int): real {
    Max((limit * headroomPct) as real / 100.0, 1.0)
  }

  function RpmInterval(rpm: int, headroomPct: int): real {
    60.0 / EffectiveLimit(rpm, headroomPct)
  }

  function TpmInterval(tpm: int, estimatedTokens: int, headroomPct: int): real {
    60.0 * estimatedTokens as real / EffectiveLimit(tpm, headroomPct)
  }

  function ComputeMinInterval(rpm: int, tpm: int, estimatedTokens: int, headroomPct: int,
                              floorSeconds: real, overrideSeconds: Option<real>): real
  {
    var byDefault := Max(Max(RpmInterval(rpm, headroomPct), TpmInterval(tpm, estimatedTokens, headroomPct)),
                         floorSeconds);
    match overrideSeconds
    case Some(o) => Max(o, floorSeconds)
    case None => Max(byDefault, floorSeconds)
  }

  /** What the environment may set for one provider; None where it sets nothing that parses, except
      that an interval that does not parse is zero. */
  datatype ProviderEnv = ProviderEnv(
    rpm: Option<int>, tpm: Option<int>, estimatedTokens: Option<int>, headroomPct: Option<int>,
    intervalOverride: Option<real>)

  const UNSET := ProviderEnv(None, None, None, None, None)

  datatype ProviderDefaults = ProviderDefaults(rpm: int, tpm: int, estimatedTokens: int, floorSeconds: real)

  datatype ProviderLimits = ProviderLimits(
    rpm: int, tpm: int, estimatedTokens: int, headroomPct: int, minInterval: real)

  const DEFAULT_HEADROOM_PCT := 85
  const CATCHUP_LLM_HEADROOM_PCT := 95

  const PROVIDERS: map<string, ProviderDefaults> := map[
    "groq" := ProviderDefaults(30, 8000, 1000, 0.5),
    "gemini" := ProviderDefaults(15, 250000, 1500, 0.5),
    "cerebras" := ProviderDefaults(5, 30000, 1500, 0.5),
    "openrouter" := ProviderDefaults(20, 40000, 1500, 1.0)]

  /** Catch-up mode raises the headroom, never past the whole limit. */
  function EffectiveHeadroom(base: int, catchup: bool): int {
    if !catchup then base
    else
      var raised := if base > CATCHUP_LLM_HEADROOM_PCT then base else CATCHUP_LLM_HEADROOM_PCT;
      if raised < 100 then raised else 100
  }

  function LimitsFromEnv(env: ProviderEnv, defaults: ProviderDefaults, catchup: bool): ProviderLimits {
    var rpm := env.rpm.GetOr(defaults.rpm);
    var tpm := env.tpm.GetOr(defaults.tpm);
    var tokens := env.estimatedTokens.GetOr(defaults.estimatedTokens);
    var headroom := EffectiveHeadroom(env.headroomPct.GetOr(DEFAULT_HEADROOM_PCT), catchup);
    ProviderLimits(rpm, tpm, tokens, headroom,
                   ComputeMinInterval(rpm, tpm, tokens, headroom, defaults.floorSeconds, env.intervalOverride))
  }

  // ---------------------------------------------------------------- sources

  datatype Tier = Free | PremiumAuto | Custom

  datatype Environment = Environment(
    tier: Tier,
    overrides: map<string, real>,
    apiKeys: set<string>,
    providers: map<string, ProviderEnv>,
    catchup: bool)

  const PROFILES: map<string, Pacing> := map[
    "nvd" := Pacing(6.0, 1), "groq" := Pacing(15.0, 1), "gemini" := Pacing(1.0, 1),
    "cerebras" := Pacing(1.0, 1), "openrouter" := Pacing(2.0, 1), "anthropic" := Pacing(1.0, 1),
    "virustotal" := Pacing(15.0, 1), "abuseipdb" := Pacing(0.5, 1), "greynoise" := Pacing(2.0, 1),
    "github" := Pacing(0.75, 1), "otx" := Pacing(0.5, 1), "epss" := Pacing(2.0, 1),
    "osv" := Pacing(0.25, 1), "kev" := Pacing(0.0, 1), "mitre" := Pacing(1.0, 2),
    "rss" := Pacing(0.5, 3), "webhook" := Pacing(0.5, 2), "sploitus" := Pacing(1.0, 1),
    "circl" := Pacing(2.0, 1), "malwarebazaar" := Pacing(2.0, 1), "urlhaus" := Pacing(2.0, 1),
    "threatfox" := Pacing(2.0, 1), "feodo" := Pacing(2.0, 1), "phishtank" := Pacing(5.0, 1),
    "tranco" := Pacing(30.0, 1), "vulncheck" := Pacing(60.0 / 1000.0, 1)]

  const DEFAULT_PROFILE := Pacing(1.0, 1)

  const SOURCE_ALIASES: map<string, string> := map[
    "epss_bulk" := "epss", "poc_github" := "github", "cvelistv5" := "github", "vulnrichment" := "github",
    "metasploit" := "github", "nuclei" := "github", "exploitdb" := "github", "atlas" := "github"]

  /** The sources whose API key the premium tier looks for. */
  const SOURCES_WITH_API_KEY: set<string> :=
    {"nvd", "github", "virustotal", "abuseipdb", "greynoise", "otx", "circl", "vulncheck",
     "groq", "gemini", "cerebras", "openrouter"}

  const PREMIUM_INTERVAL_FACTOR := 0.5

  function ResolvePacingKey(source: string): string {
    if "rss:" <= source then "rss"
    else if "webhook." <= source then "webhook"
    else if source in SOURCE_ALIASES then SOURCE_ALIASES[source]
    else source
  }

  function Profile(key: string): Pacing {
    if key in PROFILES then PROFILES[key] else DEFAULT_PROFILE
  }

  function HasApiKey(env: Environment, key: string): bool {
    key in SOURCES_WITH_API_KEY && key in env.apiKeys
  }

  function ProviderOf(env: Environment, key: string): ProviderLimits
    requires key in PROVIDERS
  {
    LimitsFromEnv(if key in env.providers then env.providers[key] else UNSET, PROVIDERS[key], env.catchup)
  }

  function BaseInterval(env: Environment, key: string): real {
    var interval :=
      if key == "nvd" then (if HasApiKey(env, key) then 60.0 / 50.0 else 60.0 / 5.0)
      else if key == "github" then (if HasApiKey(env, key) then 3600.0 / 5000.0 else 3600.0 / 60.0)
      else if key in PROVIDERS then ProviderOf(env, key).minInterval
      else Profile(key).minInterval;
    Max(interval, 0.0)
  }

  function GetSourcePacing(env: Environment, source: string): Pacing {
    var key := ResolvePacingKey(source);
    if env.tier.Custom? && key in env.overrides then
      Pacing(Max(0.0, env.overrides[key]), Profile(key).maxConcurrent)
    else if env.tier.PremiumAuto? && HasApiKey(env, key) then
      Pacing(Max(BaseInterval(env, key) * PREMIUM_INTERVAL_FACTOR, 0.0), Profile(key).maxConcurrent)
    else
      Pacing(BaseInterval(env, key), Profile(key).maxConcurrent)
  }

  // ---------------------------------------------------------------- properties

  lemma KeyIsFixed(source: string)
    ensures ResolvePacingKey(ResolvePacingKey(source)) == ResolvePacingKey(source)
  {
    assert "epss"[0] == 'e' && "github"[0] == 'g' && "webhook"[0] == 'w';
    assert "webhook."[7] == '.' && "rss:"[3] == ':';
  }

  /** A pacing key is its own pacing key, so a source and its key are paced alike. */
  lemma PacingKeyIsFixed(env: Environment, source: string)
    ensures ResolvePacingKey(ResolvePacingKey(source)) == ResolvePacingKey(source)
    ensures GetSourcePacing(env, ResolvePacingKey(source)) == GetSourcePacing(env, source)
  {
    KeyIsFixed(source);
    hide ResolvePacingKey, BaseInterval, Profile;
  }

  lemma PositiveQuotient(a: real, b: real)
    requires b > 0.0
    ensures (a / b) * b == a
  {
  }

  lemma ScaleUp(n: real, x: real, interval: real, T: real, limit: real)
    requires limit > 0.0 && n >= 0.0 && n * interval <= T
    requires interval >= x / limit
    ensures n * x <= T * limit
  {
    var y := x / limit;
    PositiveQuotient(x, limit);
    assert n * y <= n * interval by { assert n * (interval - y) >= 0.0; }
    assert n * y * limit <= T * limit by { assert (T - n * y) * limit >= 0.0; }
    assert n * y * limit == n * x;
  }

  /** A spacing that honours both limits keeps n requests within T seconds under them. */
  lemma SpacingKeepsLimits(n: nat, interval: real, T: real, p: ProviderLimits)
    requires n as real * interval <= T
    requires interval >= RpmInterval(p.rpm, p.headroomPct)
    requires interval >= TpmInterval(p.tpm, p.estimatedTokens, p.headroomPct)
    ensures n as real * 60.0 <= T * EffectiveLimit(p.rpm, p.headroomPct)
    ensures n as real * (60.0 * p.estimatedTokens as real) <= T * EffectiveLimit(p.tpm, p.headroomPct)
  {
    ScaleUp(n as real, 60.0, interval, T, EffectiveLimit(p.rpm, p.headroomPct));
    ScaleUp(n as real, 60.0 * p.estimatedTokens as real, interval, T, EffectiveLimit(p.tpm, p.headroomPct));
  }

  /** Below the whole limit, the effective limit is no more than what the provider grants. */
  lemma EffectiveLimitWithinProvider(limit: int, headroomPct: int)
    requires limit >= 1 && 0 <= headroomPct <= 100
    ensures EffectiveLimit(limit, headroomPct) <= limit as real
  {
    assert limit * headroomPct <= limit * 100;
    assert (limit * headroomPct) as real <= (limit * 100) as real == limit as real * 100.0;
  }

  lemma QuotaFollows(n: nat, T: real, limit: int, headroomPct: int)
    requires T >= 0.0 && limit >= 1 && 0 <= headroomPct <= 100
    requires n as real * 60.0 <= T * EffectiveLimit(limit, headroomPct)
    ensures n as real * 60.0 <= T * limit as real
  {
    EffectiveLimitWithinProvider(limit, headroomPct);
    assert T * (limit as real - EffectiveLimit(limit, headroomPct)) >= 0.0;
  }
}
