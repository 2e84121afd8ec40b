/** The queue and its configuration together: what a provider sees of BRIEFR's requests. */
module LlmRateBound {
  import opened Options
  import opened ApiQueue
  import opened ApiQueuePacing
  import opened SourcePacing

  /** The configuration the queue works with. */
  function ConfigOf(env: Environment): Config {
    key => GetSourcePacing(env, key)
  }

  /** The slots of a key within T seconds, in any run of the queue under the environment. */
  ghost predicate SlotsWithin(env: Environment, q: Queue, clock: real, events: seq<Event>, key: string,
                              first: nat, n: nat, start: real, T: real)
  {
    IsRun(ConfigOf(env), q, clock, events) &&
    Within(GrantTimes(ConfigOf(env), q, clock, events, key), first, n, start, T)
  }

  /** The environment sets no interval for the provider. */
  predicate NoOverride(env: Environment, key: string) {
    key in env.providers ==> env.providers[key].intervalOverride.None?
  }

  lemma ProviderKey(key: string)
    requires key in PROVIDERS
    ensures ResolvePacingKey(key) == key
  {
    assert key in {"groq", "gemini", "cerebras", "openrouter"};
    assert key !in SOURCE_ALIASES;
    assert key[0] == 'g' || key[0] == 'c' || key[0] == 'o';
  }

  /** The interval of a provider without an override, before any premium discount. */
  lemma ProviderInterval(env: Environment, key: string)
    requires key in PROVIDERS && NoOverride(env, key)
    ensures var p := ProviderOf(env, key);
            BaseInterval(env, key) == Max(Max(RpmInterval(p.rpm, p.headroomPct),
                                              TpmInterval(p.tpm, p.estimatedTokens, p.headroomPct)),
                                          PROVIDERS[key].floorSeconds)
    ensures RpmInterval(ProviderOf(env, key).rpm, ProviderOf(env, key).headroomPct) > 0.0
  {
    NotScheduled(key);
    hide PROVIDERS, LimitsFromEnv, TpmInterval, RpmInterval, HasApiKey, Profile;
    LimitsInterval(if key in env.providers then env.providers[key] else UNSET, PROVIDERS[key], env.catchup);
  }

  lemma NotScheduled(key: string)
    requires key in PROVIDERS
    ensures key != "nvd" && key != "github" && PROVIDERS[key].floorSeconds > 0.0
  {
    assert key in {"groq", "gemini", "cerebras", "openrouter"};
    assert |"groq"| == 4 && |"gemini"| == 6 && "gemini"[1] == 'e' && |"cerebras"| == 8 && |"openrouter"| == 10;
  }

  lemma LimitsInterval(env: ProviderEnv, defaults: ProviderDefaults, catchup: bool)
    requires env.intervalOverride.None? && defaults.floorSeconds > 0.0
    ensures var p := LimitsFromEnv(env, defaults, catchup);
            && p.minInterval == Max(Max(RpmInterval(p.rpm, p.headroomPct),
                                        TpmInterval(p.tpm, p.estimatedTokens, p.headroomPct)), defaults.floorSeconds)
            && p.minInterval > 0.0 && RpmInterval(p.rpm, p.headroomPct) > 0.0
  {
    hide TpmInterval, EffectiveHeadroom;
  }

  lemma FreeInterval(env: Environment, key: string)
    requires env.tier.Free? && key in PROVIDERS && NoOverride(env, key)
    ensures var p := ProviderOf(env, key);
            var i := GetSourcePacing(env, key).minInterval;
            && i >= RpmInterval(p.rpm, p.headroomPct)
            && i >= TpmInterval(p.tpm, p.estimatedTokens, p.headroomPct)
  {
    ProviderKey(key);
    ProviderInterval(env, key);
    hide BaseInterval, RpmInterval, TpmInterval, ProviderOf, ResolvePacingKey;
  }

  lemma PacedSlots(cfg: Config, p: ProviderLimits, q: Queue, clock: real, events: seq<Event>, key: string,
                   first: nat, n: nat, start: real, T: real)
    requires IsRun(cfg, q, clock, events)
    requires n >= 1 && Within(GrantTimes(cfg, q, clock, events, key), first, n, start, T)
    requires cfg(key).minInterval >= RpmInterval(p.rpm, p.headroomPct)
    requires cfg(key).minInterval >= TpmInterval(p.tpm, p.estimatedTokens, p.headroomPct)
    ensures (n - 1) as real * 60.0 <= T * EffectiveLimit(p.rpm, p.headroomPct)
    ensures (n - 1) as real * (60.0 * p.estimatedTokens as real) <= T * EffectiveLimit(p.tpm, p.headroomPct)
  {
    GrantRateBound(cfg, q, clock, events, key, first, n, start, T);
    SpacingKeepsLimits(n - 1, cfg(key).minInterval, T, p);
  }

  /**
   On the free tier, with no interval override, any n slots that an LLM provider's queue hands out
   within T seconds, in any interleaving, stay within the effective request and token limits.
   */
  lemma ProviderLimitsAreKept(env: Environment, q: Queue, clock: real, events: seq<Event>, key: string,
                              first: nat, n: nat, start: real, T: real)
    requires env.tier.Free? && key in PROVIDERS && NoOverride(env, key)
    requires n >= 1 && SlotsWithin(env, q, clock, events, key, first, n, start, T)
    ensures var p := ProviderOf(env, key);
            && (n - 1) as real * 60.0 <= T * EffectiveLimit(p.rpm, p.headroomPct)
            && (n - 1) as real * (60.0 * p.estimatedTokens as real) <= T * EffectiveLimit(p.tpm, p.headroomPct)
  {
    hide EffectiveLimit, LimitsFromEnv, ComputeMinInterval, BaseInterval;
    FreeInterval(env, key);
    PacedSlots(ConfigOf(env), ProviderOf(env, key), q, clock, events, key, first, n, start, T);
  }

  /** The same in the provider's own terms: its published request limit, when the headroom is a percentage. */
  lemma ProviderQuotaIsKept(env: Environment, q: Queue, clock: real, events: seq<Event>, key: string,
                            first: nat, n: nat, start: real, T: real)
    requires env.tier.Free? && key in PROVIDERS && NoOverride(env, key)
    requires n >= 1 && SlotsWithin(env, q, clock, events, key, first, n, start, T)
    requires T >= 0.0 && ProviderOf(env, key).rpm >= 1 && 0 <= ProviderOf(env, key).headroomPct <= 100
    ensures (n - 1) as real * 60.0 <= T * ProviderOf(env, key).rpm as real
  {
    hide EffectiveLimit, LimitsFromEnv, ComputeMinInterval, BaseInterval;
    ProviderLimitsAreKept(env, q, clock, events, key, first, n, start, T);
    QuotaFollows(n - 1, T, ProviderOf(env, key).rpm, ProviderOf(env, key).headroomPct);
  }
}
