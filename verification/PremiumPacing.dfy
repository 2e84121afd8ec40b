/** What the premium tier's halved interval does to the limits of an LLM provider, in runs of the queue. */
module PremiumPacing {
  import opened Options
  import opened ApiQueue
  import opened ApiQueuePacing
  import opened SourcePacing
  import opened LlmRateBound

  // ---------------------------------------------------------------- the busiest run

  /** Nobody is in the queue, nothing is paused, and the key's last slot started at the given time. */
  predicate Idle(q: Queue, key: string, last: real) {
    && q.requests == map[] && StackOf(q, key) == []
    && SourceOf(q, key).queued == 0 && SourceOf(q, key).active == 0
    && SourceOf(q, key).pauseUntil <= last && SourceOf(q, key).lastRequestAt == last
  }

  /** One slot, as early as the pacing allows, and its release: three steps back to an idle queue. */
  ghost predicate SlotSteps(cfg: Config, key: string, id: string, t: real, q: Queue, q1: Queue, q2: Queue, q3: Queue) {
    var enter, poll, release := EnterEv(id, key, t), PollEv(id, t, t), ReleaseEv(key, id);
    && Enabled(q, enter) && Step(cfg, q, enter) == q1 && !IsGrant(cfg, q, enter, key)
    && Enabled(q1, poll) && Step(cfg, q1, poll) == q2 && IsGrant(cfg, q1, poll, key)
    && Enabled(q2, release) && Step(cfg, q2, release) == q3 && !IsGrant(cfg, q2, release, key)
  }

  lemma SlotStepsExist(cfg: Config, q: Queue, key: string, last: real, id: string)
    returns (q1: Queue, q2: Queue, q3: Queue)
    requires Idle(q, key, last) && cfg(key).maxConcurrent >= 1 && cfg(key).minInterval >= 0.0
    ensures SlotSteps(cfg, key, id, last + cfg(key).minInterval, q, q1, q2, q3)
    ensures Idle(q3, key, last + cfg(key).minInterval)
  {
    var t := last + cfg(key).minInterval;
    q1 := Enter(q, id, key, t);
    q2 := Poll(q1, cfg(key), id, t, t);
    q3 := Release(q2, key, id);
    assert StackOf(q2, key) == [id] && RemoveFirst([id], id) == [];
    assert q2.requests.Keys == {id};
    assert q3.requests == map[];
  }

  /** A run with one more event before it. */
  lemma Before(cfg: Config, q: Queue, clock: real, e: Event, rest: seq<Event>, key: string)
    returns (events: seq<Event>)
    requires Enabled(q, e) && Timely(clock, e) && IsRun(cfg, Step(cfg, q, e), ClockAfter(clock, e), rest)
    ensures IsRun(cfg, q, clock, events)
    ensures var later := GrantTimes(cfg, Step(cfg, q, e), ClockAfter(clock, e), rest, key);
            GrantTimes(cfg, q, clock, events, key) == if IsGrant(cfg, q, e, key) then [e.at] + later else later
  {
    hide Enabled, Step, Timely;
    events := [e] + rest;
    assert events[1..] == rest && events[0] == e;
  }

  lemma SlotBefore(cfg: Config, key: string, id: string, last: real, t: real, q: Queue, q1: Queue, q2: Queue,
                   q3: Queue, rest: seq<Event>) returns (events: seq<Event>)
    requires SlotSteps(cfg, key, id, t, q, q1, q2, q3) && last <= t && IsRun(cfg, q3, t, rest)
    ensures IsRun(cfg, q, last, events)
    ensures GrantTimes(cfg, q, last, events, key) == [t] + GrantTimes(cfg, q3, t, rest, key)
  {
    hide IsRun, GrantTimes, Enabled, Step, IsGrant, Idle;
    events := Before(cfg, q2, t, ReleaseEv(key, id), rest, key);
    events := Before(cfg, q1, t, PollEv(id, t, t), events, key);
    events := Before(cfg, q, last, EnterEv(id, key, t), events, key);
  }

  /** The times of n slots, each the interval after the one before. */
  function Ticks(last: real, interval: real, n: nat): seq<real>
    decreases n
  {
    if n == 0 then [] else [last + interval] + Ticks(last + interval, interval, n - 1)
  }

  lemma {:induction false} TicksAre(last: real, interval: real, n: nat)
    ensures |Ticks(last, interval, n)| == n
    ensures forall k | 0 <= k < n :: Ticks(last, interval, n)[k] == last + (k + 1) as real * interval
    decreases n
  {
    if n > 0 {
      TicksAre(last + interval, interval, n - 1);
      forall k | 0 <= k < n ensures Ticks(last, interval, n)[k] == last + (k + 1) as real * interval {
        assert (k + 1) as real * interval == interval + k as real * interval;
      }
    }
  }

  /** Ids of different lengths, so that none repeats. */
  function IdOf(n: nat): string {
    seq(n, i => 'a')
  }

  lemma NoSlots(cfg: Config, q: Queue, key: string, last: real, interval: real)
    ensures IsRun(cfg, q, last, []) && GrantTimes(cfg, q, last, [], key) == Ticks(last, interval, 0)
  {
  }

  lemma OneMoreTick(last: real, interval: real, n: nat)
    requires n > 0
    ensures Ticks(last, interval, n) == [last + interval] + Ticks(last + interval, interval, n - 1)
  {
  }

  /** The queue can hand out n slots, each exactly the minimum interval after the one before. */
  lemma {:induction false} SteadyRun(cfg: Config, q: Queue, key: string, last: real, interval: real, n: nat)
    returns (events: seq<Event>)
    requires Idle(q, key, last) && cfg(key).maxConcurrent >= 1 && cfg(key).minInterval == interval >= 0.0
    ensures IsRun(cfg, q, last, events)
    ensures GrantTimes(cfg, q, last, events, key) == Ticks(last, interval, n)
    decreases n
  {
    hide Idle, IsRun, GrantTimes, IdOf, SlotSteps, Ticks;
    if n == 0 {
      NoSlots(cfg, q, key, last, interval);
      events := [];
    } else {
      var q1, q2, q3 := SlotStepsExist(cfg, q, key, last, IdOf(n));
      var rest := SteadyRun(cfg, q3, key, last + interval, interval, n - 1);
      events := SlotBefore(cfg, key, IdOf(n), last, last + interval, q, q1, q2, q3, rest);
      OneMoreTick(last, interval, n);
    }
  }

  // ---------------------------------------------------------------- exactly when a limit is kept

  /**
   In every run of the queue from its start, any n slots of the key within T seconds stay within a
   limit a minute, when each counts for so many units.
   */
  ghost predicate KeepsLimit(env: Environment, key: string, units: real, limit: real) {
    forall events, first: nat, n: nat, start, T |
      n >= 1 && SlotsWithin(env, EMPTY_QUEUE, 0.0, events, key, first, n, start, T) ::
      (n - 1) as real * (60.0 * units) <= T * limit
  }

  /** A limit is kept if and only if the interval alone keeps it. */
  lemma LimitKeptIff(env: Environment, key: string, units: real, limit: real)
    requires limit > 0.0 && ConfigOf(env)(key).maxConcurrent >= 1 && ConfigOf(env)(key).minInterval >= 0.0
    ensures KeepsLimit(env, key, units, limit) <==> ConfigOf(env)(key).minInterval >= 60.0 * units / limit
  {
    if ConfigOf(env)(key).minInterval >= 60.0 * units / limit {
      IntervalKeeps(env, key, units, limit);
    } else if KeepsLimit(env, key, units, limit) {
      var events := TwoSlots(env, key);
      var i := ConfigOf(env)(key).minInterval;
      hide ConfigOf, SlotsWithin;
      KeptOnce(env, key, units, limit, events, i);
      hide KeepsLimit;
      Divide(60.0 * units, i, limit);
    }
  }

  lemma KeptOnce(env: Environment, key: string, units: real, limit: real, events: seq<Event>, T: real)
    requires KeepsLimit(env, key, units, limit) && SlotsWithin(env, EMPTY_QUEUE, 0.0, events, key, 0, 2, T, T)
    ensures 60.0 * units <= T * limit
  {
    hide ConfigOf, SlotsWithin;
    assert (2 - 1) as real * (60.0 * units) <= T * limit;
  }

  lemma IntervalKeeps(env: Environment, key: string, units: real, limit: real)
    requires limit > 0.0 && ConfigOf(env)(key).minInterval >= 60.0 * units / limit
    ensures KeepsLimit(env, key, units, limit)
  {
    var cfg := ConfigOf(env);
    hide ConfigOf, IsRun, GrantTimes;
    forall events, first: nat, n: nat, start, T |
      n >= 1 && SlotsWithin(env, EMPTY_QUEUE, 0.0, events, key, first, n, start, T)
      ensures (n - 1) as real * (60.0 * units) <= T * limit
    {
      GrantRateBound(cfg, EMPTY_QUEUE, 0.0, events, key, first, n, start, T);
      ScaleUp((n - 1) as real, 60.0 * units, cfg(key).minInterval, T, limit);
    }
  }

  lemma TwoSlots(env: Environment, key: string) returns (events: seq<Event>)
    requires ConfigOf(env)(key).maxConcurrent >= 1 && ConfigOf(env)(key).minInterval >= 0.0
    ensures var i := ConfigOf(env)(key).minInterval;
            SlotsWithin(env, EMPTY_QUEUE, 0.0, events, key, 0, 2, i, i)
  {
    var cfg := ConfigOf(env);
    assert Idle(EMPTY_QUEUE, key, 0.0);
    hide ConfigOf;
    var i := cfg(key).minInterval;
    events := SteadyRun(cfg, EMPTY_QUEUE, key, 0.0, i, 2);
    TicksAre(0.0, i, 2);
    assert Ticks(0.0, i, 2)[0] == i && Ticks(0.0, i, 2)[1] == 2.0 * i;
  }

  lemma Divide(x: real, i: real, limit: real)
    requires limit > 0.0 && x <= i * limit
    ensures i >= x / limit
  {
    assert (i - x / limit) * limit == i * limit - x;
  }

  /** A paced provider has one slot at a time. */
  lemma ProviderConfig(env: Environment, key: string)
    requires env.tier.PremiumAuto? && key in PROVIDERS && HasApiKey(env, key) && NoOverride(env, key)
    ensures var p := ProviderOf(env, key);
            && ConfigOf(env)(key).maxConcurrent >= 1 && ConfigOf(env)(key).minInterval > 0.0
            && 2.0 * ConfigOf(env)(key).minInterval ==
               Max(Max(RpmInterval(p.rpm, p.headroomPct), TpmInterval(p.tpm, p.estimatedTokens, p.headroomPct)),
                   PROVIDERS[key].floorSeconds)
            && RpmInterval(p.rpm, p.headroomPct) > 0.0
  {
    ProviderKey(key);
    ProviderInterval(env, key);
    OneAtATime(key);
    hide BaseInterval, RpmInterval, TpmInterval, ProviderOf, ResolvePacingKey, PROVIDERS, Profile;
  }

  lemma OneAtATime(key: string)
    requires key in PROVIDERS
    ensures Profile(key).maxConcurrent == 1
  {
    assert key in {"groq", "gemini", "cerebras", "openrouter"};
  }

  lemma IntervalsAre(p: ProviderLimits)
    ensures EffectiveLimit(p.rpm, p.headroomPct) > 0.0 && EffectiveLimit(p.tpm, p.headroomPct) > 0.0
    ensures RpmInterval(p.rpm, p.headroomPct) == 60.0 * 1.0 / EffectiveLimit(p.rpm, p.headroomPct)
    ensures TpmInterval(p.tpm, p.estimatedTokens, p.headroomPct) ==
            60.0 * p.estimatedTokens as real / EffectiveLimit(p.tpm, p.headroomPct)
  {
  }

  lemma HalfInterval(i: real, byRequests: real, byTokens: real, floor: real)
    requires 2.0 * i == Max(Max(byRequests, byTokens), floor) && i > 0.0
    ensures i >= byRequests <==> Max(byTokens, floor) >= 2.0 * byRequests
    ensures byRequests > 0.0 ==> (i >= byTokens <==> Max(byRequests, floor) >= 2.0 * byTokens)
  {
  }

  /**
   The premium tier halves the interval of a provider.  In runs of the queue it still keeps the
   effective request limit if and only if the token limit or the floor already asked for twice the
   request interval, and the effective token limit if and only if the request limit or the floor
   already asked for twice the token interval.
   */
  lemma PremiumKeepsLimitsIff(env: Environment, key: string)
    requires env.tier.PremiumAuto? && key in PROVIDERS && HasApiKey(env, key) && NoOverride(env, key)
    ensures var p, floor := ProviderOf(env, key), PROVIDERS[key].floorSeconds;
            var byRequests := RpmInterval(p.rpm, p.headroomPct);
            var byTokens := TpmInterval(p.tpm, p.estimatedTokens, p.headroomPct);
            && (KeepsLimit(env, key, 1.0, EffectiveLimit(p.rpm, p.headroomPct)) <==>
                Max(byTokens, floor) >= 2.0 * byRequests)
            && (KeepsLimit(env, key, p.estimatedTokens as real, EffectiveLimit(p.tpm, p.headroomPct)) <==>
                Max(byRequests, floor) >= 2.0 * byTokens)
  {
    var p := ProviderOf(env, key);
    ProviderConfig(env, key);
    IntervalsAre(p);
    HalfInterval(ConfigOf(env)(key).minInterval, RpmInterval(p.rpm, p.headroomPct),
                 TpmInterval(p.tpm, p.estimatedTokens, p.headroomPct), PROVIDERS[key].floorSeconds);
    hide KeepsLimit, GetSourcePacing, ProviderOf, PROVIDERS, EffectiveLimit, RpmInterval, TpmInterval, ConfigOf, Max;
    LimitKeptIff(env, key, 1.0, EffectiveLimit(p.rpm, p.headroomPct));
    LimitKeptIff(env, key, p.estimatedTokens as real, EffectiveLimit(p.tpm, p.headroomPct));
  }

  // ---------------------------------------------------------------- Gemini

  lemma GeminiInterval()
    ensures RpmInterval(15, 85) == 60.0 / 12.75
    ensures ComputeMinInterval(15, 250000, 1500, 85, 0.5, None) == 60.0 / 12.75
  {
    assert EffectiveLimit(15, 85) == 12.75;
    assert EffectiveLimit(250000, 85) == 212500.0;
  }

  /**
   With Gemini's default limits the queue can hand out twenty-six slots within a minute, where the
   provider grants fifteen requests.
   */
  lemma PremiumExceedsGemini(env: Environment) returns (events: seq<Event>, start: real)
    requires env.tier.PremiumAuto? && "gemini" in env.apiKeys && "gemini" !in env.providers && !env.catchup
    ensures SlotsWithin(env, EMPTY_QUEUE, 0.0, events, "gemini", 0, 26, start, 60.0)
    ensures !KeepsLimit(env, "gemini", 1.0, 15.0)
  {
    var cfg := ConfigOf(env);
    var i := cfg("gemini").minInterval;
    GeminiPremium(env);
    hide GetSourcePacing;
    events := SteadyRun(cfg, EMPTY_QUEUE, "gemini", 0.0, i, 26);
    TicksAre(0.0, i, 26);
    start := i;
    var g := Ticks(0.0, i, 26);
    forall k | 0 <= k < 26 ensures i <= g[k] <= i + 60.0 {
      assert g[k] == (k + 1) as real * i;
    }
    assert SlotsWithin(env, EMPTY_QUEUE, 0.0, events, "gemini", 0, 26, start, 60.0);
    assert (26 - 1) as real * (60.0 * 1.0) > 60.0 * 15.0;
  }

  lemma GeminiPremium(env: Environment)
    requires env.tier.PremiumAuto? && "gemini" in env.apiKeys && "gemini" !in env.providers && !env.catchup
    ensures ConfigOf(env)("gemini") == Pacing(30.0 / 12.75, 1)
  {
    assert "gemini"[0] == 'g';
    var p := ProviderOf(env, "gemini");
    assert p == LimitsFromEnv(UNSET, ProviderDefaults(15, 250000, 1500, 0.5), false);
    GeminiInterval();
  }
}
