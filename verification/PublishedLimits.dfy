/**
 The configured numbers, as what they are for: which limits a minute the queue keeps in every run, for
 each kind of source, and what the operator's settings do to them.
 */
module PublishedLimits {
  import opened Options
  import opened ApiQueue
  import opened SourcePacing
  import opened LlmRateBound
  import opened PremiumPacing

  // ---------------------------------------------------------------- which sources share a queue

  lemma AliasesAre(source: string)
    ensures source in SOURCE_ALIASES <==>
            source in {"epss_bulk", "poc_github", "cvelistv5", "vulnrichment", "metasploit",
                       "nuclei", "exploitdb", "atlas"}
    ensures source == "epss_bulk" ==> SOURCE_ALIASES[source] == "epss"
    ensures source in SOURCE_ALIASES && source != "epss_bulk" ==> SOURCE_ALIASES[source] == "github"
  {
    assert |"epss_bulk"| == 9 && |"poc_github"| == 10 && |"cvelistv5"| == 9 && |"vulnrichment"| == 12;
    assert |"metasploit"| == 10 && |"nuclei"| == 6 && |"exploitdb"| == 9 && |"atlas"| == 5;
    assert "epss_bulk"[0] == 'e' && "epss_bulk"[1] == 'p' && "cvelistv5"[0] == 'c' && "exploitdb"[1] == 'x';
  }

  lemma KeysDiffer()
    ensures "github" != "epss" && "rss" != "github" && "rss" != "epss"
    ensures "webhook" != "github" && "webhook" != "epss" && "webhook" != "rss"
  {
    assert |"github"| == 6 && |"epss"| == 4 && |"rss"| == 3 && |"webhook"| == 7;
  }

  /**
   Which sources are paced together: all feeds that are read from GitHub, both EPSS sources, all RSS
   feeds, and all webhooks; every other source is paced by itself.
   */
  lemma PacedTogetherIff(source: string)
    ensures var key := ResolvePacingKey(source);
            && (key == "github" <==> source in {"github", "poc_github", "cvelistv5", "vulnrichment", "metasploit",
                                                "nuclei", "exploitdb", "atlas"})
            && (key == "epss" <==> source == "epss" || source == "epss_bulk")
            && (key == "rss" <==> source == "rss" || "rss:" <= source)
            && (key == "webhook" <==> source == "webhook" || "webhook." <= source)
            && (key != "github" && key != "epss" && key != "rss" && key != "webhook" ==> key == source)
  {
    AliasesAre(source);
    KeysDiffer();
    hide SOURCE_ALIASES;
    if "rss:" <= source {
      assert source[0] == 'r' && source[3] == ':';
      assert "github"[0] == 'g' && "poc_github"[0] == 'p' && "cvelistv5"[0] == 'c' && "vulnrichment"[0] == 'v';
      assert "metasploit"[0] == 'm' && "nuclei"[0] == 'n' && "exploitdb"[0] == 'e' && "atlas"[0] == 'a';
      assert "epss"[0] == 'e' && "epss_bulk"[0] == 'e' && "webhook"[0] == 'w' && "webhook."[0] == 'w';
    } else if "webhook." <= source {
      assert source[0] == 'w';
      assert "github"[0] == 'g' && "poc_github"[0] == 'p' && "cvelistv5"[0] == 'c' && "vulnrichment"[0] == 'v';
      assert "metasploit"[0] == 'm' && "nuclei"[0] == 'n' && "exploitdb"[0] == 'e' && "atlas"[0] == 'a';
      assert "epss"[0] == 'e' && "epss_bulk"[0] == 'e' && "rss"[0] == 'r';
    } else {
      assert "rss"[0] == 'r' && "webhook"[0] == 'w';
      assert "epss_bulk"[0] == 'e' && "poc_github"[0] == 'p' && "cvelistv5"[0] == 'c' && "vulnrichment"[0] == 'v';
      assert "metasploit"[0] == 'm' && "nuclei"[0] == 'n' && "exploitdb"[0] == 'e' && "atlas"[0] == 'a';
    }
  }

  // ---------------------------------------------------------------- limits that are kept

  lemma RatioIff(interval: real, x: real, limit: real)
    requires limit > 0.0
    ensures interval >= x / limit <==> interval * limit >= x
  {
    var y := x / limit;
    PositiveQuotient(x, limit);
    assert (interval - y) * limit == interval * limit - x;
  }

  /** A key with a given interval keeps a limit a minute in every run exactly when interval * limit >= 60 * units. */
  lemma KeptIff(env: Environment, key: string, units: real, limit: real, interval: real)
    requires GetSourcePacing(env, key).minInterval == interval >= 0.0 && GetSourcePacing(env, key).maxConcurrent >= 1
    requires limit > 0.0
    ensures KeepsLimit(env, key, units, limit) <==> interval * limit >= 60.0 * units
  {
    hide KeepsLimit, GetSourcePacing;
    LimitKeptIff(env, key, units, limit);
    RatioIff(interval, 60.0 * units, limit);
  }

  /** NVD on the free tier: 5 requests a minute without a key and 50 with one, and no fewer. */
  lemma NvdLimitIff(env: Environment, limit: real)
    requires env.tier.Free? && limit > 0.0
    ensures KeepsLimit(env, "nvd", 1.0, limit) <==> limit >= if "nvd" in env.apiKeys then 50.0 else 5.0
  {
    assert |"nvd"| == 3 && "nvd"[0] == 'n' && "nvd" != "rss";
    AliasesAre("nvd");
    assert |"atlas"| == 5 && |"nuclei"| == 6;
    var interval := if "nvd" in env.apiKeys then 1.2 else 12.0;
    assert GetSourcePacing(env, "nvd") == Pacing(interval, 1);
    hide KeepsLimit, GetSourcePacing;
    KeptIff(env, "nvd", 1.0, limit, interval);
  }

  /** GitHub on the free tier: 60 requests an hour without a token and 5000 with one, and no fewer. */
  lemma GithubLimitIff(env: Environment, hourly: real)
    requires env.tier.Free? && hourly > 0.0
    ensures KeepsLimit(env, "github", 1.0, hourly / 60.0) <==>
            hourly >= if "github" in env.apiKeys then 5000.0 else 60.0
  {
    PacedTogetherIff("github");
    assert |"github"| == 6 && |"nvd"| == 3;
    var interval := if "github" in env.apiKeys then 0.72 else 60.0;
    assert GetSourcePacing(env, "github") == Pacing(interval, 1);
    hide KeepsLimit, GetSourcePacing;
    KeptIff(env, "github", 1.0, hourly / 60.0, interval);
  }

  /** The other sources with a rate in their profile, by requests a minute. */
  function ProfileRate(key: string): Option<real> {
    if key == "virustotal" then Some(4.0)
    else if key == "phishtank" then Some(12.0)
    else if key == "tranco" then Some(2.0)
    else if key in {"greynoise", "epss", "circl", "malwarebazaar", "urlhaus", "threatfox", "feodo"} then Some(30.0)
    else if key in {"abuseipdb", "otx", "rss", "webhook"} then Some(120.0)
    else if key == "osv" then Some(240.0)
    else if key == "vulncheck" then Some(1000.0)
    else if key in {"anthropic", "mitre", "sploitus"} then Some(60.0)
    else None
  }

  lemma RateOfProfile(key: string)
    requires ProfileRate(key).Some?
    ensures var p := Profile(key);
            p.minInterval > 0.0 && p.minInterval * ProfileRate(key).value == 60.0 && p.maxConcurrent >= 1
  {
  }

  lemma NoLimitsOfItsOwn(key: string)
    requires ProfileRate(key).Some?
    ensures key !in PROVIDERS && key != "nvd" && key != "github"
  {
    assert |"github"| == 6 && |"nvd"| == 3 && |"groq"| == 4 && |"gemini"| == 6 && |"cerebras"| == 8;
  }

  lemma PacedByProfile(env: Environment, source: string)
    requires env.tier.Free? && ProfileRate(ResolvePacingKey(source)).Some?
    ensures var key := ResolvePacingKey(source);
            GetSourcePacing(env, key) == Profile(key) && Profile(key).minInterval > 0.0
  {
    var key := ResolvePacingKey(source);
    RateOfProfile(key);
    NoLimitsOfItsOwn(key);
    KeyIsFixed(source);
    hide ResolvePacingKey, ProfileRate, Profile, PROVIDERS;
  }

  /** Whatever is paced by such a profile keeps its rate on the free tier, and nothing lower. */
  lemma ProfileLimitIff(env: Environment, source: string, limit: real)
    requires env.tier.Free? && limit > 0.0 && ProfileRate(ResolvePacingKey(source)).Some?
    ensures KeepsLimit(env, ResolvePacingKey(source), 1.0, limit) <==>
            limit >= ProfileRate(ResolvePacingKey(source)).value
  {
    hide KeepsLimit, GetSourcePacing, ResolvePacingKey, ProfileRate, Profile;
    var key := ResolvePacingKey(source);
    PacedByProfile(env, source);
    RateOfProfile(key);
    KeptAtRate(env, key, limit, Profile(key).minInterval, ProfileRate(key).value);
  }

  lemma KeptAtRate(env: Environment, key: string, limit: real, interval: real, rate: real)
    requires GetSourcePacing(env, key).minInterval == interval > 0.0 && GetSourcePacing(env, key).maxConcurrent >= 1
    requires limit > 0.0 && interval * rate == 60.0
    ensures KeepsLimit(env, key, 1.0, limit) <==> limit >= rate
  {
    hide KeepsLimit, GetSourcePacing;
    KeptIff(env, key, 1.0, limit, interval);
    assert interval * limit - 60.0 == interval * (limit - rate);
  }

  // ---------------------------------------------------------------- providers and operators

  /**
   What an LLM provider may use: the operator's numbers, or else its published ones and 85 percent of
   them; in catch-up mode at least 95 percent, but never more than all.
   */
  lemma ProviderNumbers(env: Environment, key: string)
    requires key in PROVIDERS
    ensures
      var p := ProviderOf(env, key);
      var given := if key in env.providers then env.providers[key] else UNSET;
      var published := if key == "groq" then (30, 8000, 1000) else if key == "gemini" then (15, 250000, 1500)
                       else if key == "cerebras" then (5, 30000, 1500) else (20, 40000, 1500);
      var headroom := if given.headroomPct.Some? then given.headroomPct.value else 85;
      && p.rpm == (if given.rpm.Some? then given.rpm.value else published.0)
      && p.tpm == (if given.tpm.Some? then given.tpm.value else published.1)
      && p.estimatedTokens == (if given.estimatedTokens.Some? then given.estimatedTokens.value else published.2)
      && (!env.catchup ==> p.headroomPct == headroom)
      && (env.catchup && headroom <= 95 ==> p.headroomPct == 95)
      && (env.catchup && 95 <= headroom <= 100 ==> p.headroomPct == headroom)
      && (env.catchup && headroom > 100 ==> p.headroomPct == 100)
  {
    assert key in {"groq", "gemini", "cerebras", "openrouter"};
    assert |"groq"| == 4 && |"gemini"| == 6 && |"cerebras"| == 8 && |"openrouter"| == 10;
    hide ComputeMinInterval;
  }

  /** What a headroom leaves of a limit, but no less than one. */
  function Share(limit: int, percent: int): real {
    var part := (limit * percent) as real / 100.0;
    if part >= 1.0 then part else 1.0
  }

  lemma LargestIff(x: real, y: real, z: real, bound: real)
    ensures Max(Max(x, y), z) >= bound <==> x >= bound || y >= bound || z >= bound
  {
  }

  lemma RatiosCompare(x: real, limit: real, units: real, rate: real)
    requires limit > 0.0 && rate > 0.0
    ensures 60.0 * x / limit >= 60.0 * units / rate <==> x * rate >= units * limit
  {
    var a, b := 60.0 * x / limit, 60.0 * units / rate;
    PositiveQuotient(60.0 * x, limit);
    PositiveQuotient(60.0 * units, rate);
    assert a * (limit * rate) == 60.0 * x * rate && b * (limit * rate) == 60.0 * units * limit;
    assert (a - b) * (limit * rate) == 60.0 * (x * rate - units * limit);
    assert limit * rate > 0.0;
  }

  /** The limit is within the share of requests, the share of tokens, or what the floor allows. */
  ghost predicate WithinSome(p: ProviderLimits, floor: real, limit: real) {
    || limit >= Share(p.rpm, p.headroomPct)
    || p.estimatedTokens as real * limit >= Share(p.tpm, p.headroomPct)
    || floor * limit >= 60.0
  }

  /**
   The limit a minute that an LLM provider's queue keeps in every run on the free tier, with no override:
   any that the provider's share of requests, its share of tokens, or its floor keeps.
   */
  lemma ProviderLimitIff(env: Environment, key: string, limit: real)
    requires env.tier.Free? && key in PROVIDERS && NoOverride(env, key) && limit > 0.0
    ensures KeepsLimit(env, key, 1.0, limit) <==>
            WithinSome(ProviderOf(env, key), if key == "openrouter" then 1.0 else 0.5, limit)
  {
    hide ProviderOf, EffectiveLimit, RpmInterval, TpmInterval, Max, KeepsLimit, WithinSome, ConfigOf, GetSourcePacing;
    var interval := ProviderPacing(env, key);
    LimitKeptIff(env, key, 1.0, limit);
    ThreeWays(ProviderOf(env, key), if key == "openrouter" then 1.0 else 0.5, limit);
  }

  lemma ProviderPacing(env: Environment, key: string) returns (interval: real)
    requires env.tier.Free? && key in PROVIDERS && NoOverride(env, key)
    ensures var p := ProviderOf(env, key);
            && ConfigOf(env)(key) == Pacing(interval, 1) && interval > 0.0
            && interval == Max(Max(RpmInterval(p.rpm, p.headroomPct),
                                   TpmInterval(p.tpm, p.estimatedTokens, p.headroomPct)),
                               if key == "openrouter" then 1.0 else 0.5)
  {
    ProviderKey(key);
    ProviderInterval(env, key);
    OneAtATime(key);
    FloorIs(key);
    hide ProviderOf, PROVIDERS, EffectiveLimit, RpmInterval, TpmInterval, BaseInterval, ResolvePacingKey, Profile;
    interval := BaseInterval(env, key);
  }

  lemma ThreeWays(p: ProviderLimits, floor: real, limit: real)
    requires limit > 0.0
    ensures var r, t := RpmInterval(p.rpm, p.headroomPct), TpmInterval(p.tpm, p.estimatedTokens, p.headroomPct);
            Max(Max(r, t), floor) >= 60.0 * 1.0 / limit <==> WithinSome(p, floor, limit)
  {
    var r, t := EffectiveLimit(p.rpm, p.headroomPct), EffectiveLimit(p.tpm, p.headroomPct);
    IntervalsAre(p);
    assert Share(p.rpm, p.headroomPct) == r && Share(p.tpm, p.headroomPct) == t;
    RatiosCompare(1.0, r, 1.0, limit);
    RatiosCompare(p.estimatedTokens as real, t, 1.0, limit);
    RatioIff(floor, 60.0, limit);
    hide EffectiveLimit, RpmInterval, TpmInterval, Max, Share;
    LargestIff(RpmInterval(p.rpm, p.headroomPct), TpmInterval(p.tpm, p.estimatedTokens, p.headroomPct), floor,
               60.0 / limit);
  }

  lemma FloorIs(key: string)
    requires key in PROVIDERS
    ensures PROVIDERS[key].floorSeconds == if key == "openrouter" then 1.0 else 0.5
  {
    assert key in {"groq", "gemini", "cerebras", "openrouter"};
    assert |"groq"| == 4 && |"gemini"| == 6 && |"cerebras"| == 8 && |"openrouter"| == 10;
  }

  /** The interval of an override is that override, but no less than the provider's floor. */
  lemma OverriddenInterval(env: Environment, key: string, seconds: real)
    requires key in PROVIDERS && key in env.providers && env.providers[key].intervalOverride == Some(seconds)
    ensures var floor := if key == "openrouter" then 1.0 else 0.5;
            BaseInterval(env, key) == if seconds >= floor then seconds else floor
  {
    NotScheduled(key);
    FloorIs(key);
    hide RpmInterval, TpmInterval, EffectiveHeadroom, HasApiKey, Profile, PROVIDERS;
  }

  /**
   What the tiers do: a custom interval stands for the pacing key that it names; the premium tier halves
   the interval of a source with a key; any other source is paced as on the free tier.
   */
  lemma TiersAre(env: Environment, source: string)
    ensures
      var key, pacing := ResolvePacingKey(source), GetSourcePacing(env, source);
      var free := GetSourcePacing(env.(tier := Free), source);
      && pacing.maxConcurrent == (if key == "rss" then 3 else if key == "mitre" || key == "webhook" then 2 else 1)
      && (env.tier.Custom? && key in env.overrides ==>
            pacing.minInterval == if env.overrides[key] >= 0.0 then env.overrides[key] else 0.0)
      && (env.tier.PremiumAuto? && HasApiKey(env, key) ==> 2.0 * pacing.minInterval == free.minInterval)
      && (!(env.tier.Custom? && key in env.overrides) && !(env.tier.PremiumAuto? && HasApiKey(env, key)) ==>
            pacing == free)
  {
    var key := ResolvePacingKey(source);
    assert BaseInterval(env, key) == BaseInterval(env.(tier := Free), key) >= 0.0;
    Concurrency(key);
    hide ResolvePacingKey, BaseInterval, Profile, HasApiKey;
  }

  lemma Concurrency(key: string)
    ensures Profile(key).maxConcurrent ==
            if key == "rss" then 3 else if key == "mitre" || key == "webhook" then 2 else 1
  {
    assert |"rss"| == 3 && "rss"[0] == 'r' && |"mitre"| == 5 && "mitre"[0] == 'm' && |"webhook"| == 7;
  }
}
