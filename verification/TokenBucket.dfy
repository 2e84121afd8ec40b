/** The in-memory limiter of backend/rate_limit.py: one bucket per client key, pruned when many. */
module TokenBucket {
  import opened Options
  import opened TokenHistory

  const PRUNE_THRESHOLD: nat := 1024
  const MAX_BUCKETS: nat := 2 * PRUNE_THRESHOLD

  type Buckets = map<string, Bucket>

  function BucketOf(m: Buckets, key: string): Option<Bucket> {
    if key in m then Some(m[key]) else None
  }

  /** The buckets that are not idle: their last update is too recent for them to be full again. */
  function NotIdle(rate: Rate, m: Buckets, now: real): Buckets {
    map k | k in m && now - m[k].last < Capacity(rate) / RefillPerSecond(rate) :: m[k]
  }

  function Restrict(m: Buckets, keys: set<string>): Buckets {
    map k | k in m && k in keys :: m[k]
  }

  /** keys are n of the most recently used keys of m. */
  predicate MostRecent(m: Buckets, keys: set<string>, n: nat) {
    && keys <= m.Keys && |keys| == n
    && forall k, d | k in keys && d in m && d !in keys :: m[d].last <= m[k].last
  }

  /** What a prune may leave: nothing changed, the idle gone, or in a flood only the most recent. */
  ghost predicate Pruned(rate: Rate, m: Buckets, now: real, after: Buckets) {
    if |m| < PRUNE_THRESHOLD then after == m
    else if |NotIdle(rate, m, now)| <= MAX_BUCKETS then after == NotIdle(rate, m, now)
    else after == Restrict(NotIdle(rate, m, now), after.Keys) &&
         MostRecent(NotIdle(rate, m, now), after.Keys, PRUNE_THRESHOLD)
  }

  /** One call: the answer, and what it may leave behind.  Only a grant prunes. */
  ghost predicate Call(rate: Rate, m: Buckets, key: string, now: real, answer: real, after: Buckets) {
    && answer == Answer(rate, BucketOf(m, key), now)
    && var m' := m[key := TakeToken(rate, BucketOf(m, key), now)];
       if answer == 0.0 then Pruned(rate, m', now, after) else after == m'
  }

  /** The call drops the key's bucket although it is not idle. */
  ghost predicate FloodEvicts(rate: Rate, m: Buckets, call: string, now: real, after: Buckets, key: string) {
    var m' := m[call := TakeToken(rate, BucketOf(m, call), now)];
    key in m' && key !in after && now - m'[key].last < Capacity(rate) / RefillPerSecond(rate)
  }

  ghost predicate TokensInRange(rate: Rate, m: Buckets) {
    forall k | k in m :: InRange(rate, Some(m[k]))
  }

  lemma RangeKept(rate: Rate, m: Buckets, key: string, b: Bucket)
    requires TokensInRange(rate, m) && InRange(rate, Some(b))
    ensures TokensInRange(rate, m[key := b])
  {
  }

  lemma SameSize(m: Buckets, key: string, b: Bucket)
    requires key in m
    ensures m[key := b].Keys == m.Keys && |m[key := b]| == |m|
  {
    assert m[key := b].Keys == m.Keys;
    assert |m[key := b].Keys| == |m[key := b]| && |m.Keys| == |m|;
  }

  /** The tokens that a key has by now: full for a new key, otherwise what it had and what has flowed in. */
  function Available(rate: Rate, m: Buckets, key: string, now: real): real {
    var stored := if key in m then m[key] else Bucket(Capacity(rate), now);
    Min(Capacity(rate), stored.tokens + Refill(rate, now - stored.last))
  }

  /** What a call computes is what the history of its key says. */
  lemma AvailableIsHistory(rate: Rate, m: Buckets, key: string, now: real)
    requires key in m ==> m[key].last <= now
    ensures RefillPerSecond(rate) > 0.0
    ensures var tokens := Available(rate, m, key, now);
            && TakeToken(rate, BucketOf(m, key), now) == Bucket(if tokens >= 1.0 then tokens - 1.0 else tokens, now)
            && Answer(rate, BucketOf(m, key), now) ==
               (if tokens >= 1.0 then 0.0 else (1.0 - tokens) / RefillPerSecond(rate))
            && (tokens < 1.0 ==> key in m && (1.0 - tokens) / RefillPerSecond(rate) > 0.0)
  {
    RefillPositive(rate);
    HintPositive(rate, Available(rate, m, key, now));
  }

  /**
   What a prune leaves: below 1024 buckets everything; otherwise only buckets used within the last
   minute, all of them while they are at most 2048, and else the 1024 most recently used.
   */
  lemma PruneIs(rate: Rate, m: Buckets, now: real, after: Buckets)
    requires Pruned(rate, m, now, after)
    ensures |m| < 1024 ==> after == m
    ensures var busy := set k | k in m && now - m[k].last < 60.0;
            && (|m| >= 1024 ==> after.Keys <= busy)
            && (|m| >= 1024 && |busy| <= 2048 ==> after.Keys == busy)
            && (|m| >= 1024 && |busy| > 2048 ==>
                  |after| == 1024 && forall k, d | k in after && d in busy && d !in after :: m[d].last <= m[k].last)
    ensures forall k | k in after :: k in m && after[k] == m[k]
  {
    RefillPositive(rate);
    var busy := set k | k in m && now - m[k].last < 60.0;
    assert NotIdle(rate, m, now).Keys == busy;
    assert |NotIdle(rate, m, now)| == |NotIdle(rate, m, now).Keys| && |after| == |after.Keys|;
  }

  // ---------------------------------------------------------------- the class

  lemma {:induction false} MostRecentExists(m: Buckets, n: nat)
    requires n <= |m|
    ensures exists keys: set<string> :: MostRecent(m, keys, n)
    decreases |m|
  {
    if n == |m| {
      assert |m.Keys| == |m|;
      assert MostRecent(m, m.Keys, n);
    } else {
      var oldest := Oldest(m, m.Keys);
      var rest := m - {oldest};
      assert rest.Keys == m.Keys - {oldest};
      assert |m.Keys| == |m| && |rest.Keys| == |rest|;
      MostRecentExists(rest, n);
      var keys: set<string> :| MostRecent(rest, keys, n);
      assert MostRecent(m, keys, n);
    }
  }

  lemma {:induction false} Oldest(m: Buckets, among: set<string>) returns (k: string)
    requires among != {} && among <= m.Keys
    ensures k in among && forall d | d in among :: m[k].last <= m[d].last
    decreases |among|
  {
    k :| k in among;
    var rest := among - {k};
    if rest != {} {
      var k' := Oldest(m, rest);
      if m[k'].last < m[k].last {
        k := k';
      }
    }
  }

  class TokenBucket {
    const rate: Rate
    var hitCount: nat
    var buckets: Buckets
    var hits: map<string, nat>

    /** The configured rate, raised to at least one a minute. */
    constructor (ratePerMinute: int)
      ensures Valid() && buckets == map[] && hitCount == 0
      ensures rate == if ratePerMinute >= 1 then ratePerMinute else 1
    {
      rate := if ratePerMinute >= 1 then ratePerMinute else 1;
      hitCount, buckets, hits := 0, map[], map[];
    }

    /** The memory bound, and a hit counter for exactly the keys that have a bucket. */
    ghost predicate Valid()
      reads this
    {
      && hits.Keys == buckets.Keys
      && |buckets| <= MAX_BUCKETS
      && TokensInRange(rate, buckets)
    }

    /** Takes a token for the key; now is not before the key's last call. */
    method Acquire(key: string, now: real) returns (retryAfter: real)
      requires Valid() && (key in buckets ==> buckets[key].last <= now)
      modifies this
      ensures hitCount == old(hitCount) + 1
      ensures Valid() && |buckets| <= 2048
      ensures Call(rate, old(buckets), key, now, retryAfter, buckets)
      ensures retryAfter >= 0.0
      ensures forall k | k in hits ::
                hits[k] == (if k in old(hits) then old(hits)[k] else 0) + (if k == key then 1 else 0)
    {
      hitCount := hitCount + 1;
      hits := hits[key := (if key in hits then hits[key] else 0) + 1];
      TakeKeepsRange(rate, BucketOf(buckets, key), now);
      RangeKept(rate, buckets, key, TakeToken(rate, BucketOf(buckets, key), now));
      AvailableIsHistory(rate, buckets, key, now);
      hide Pruned, TokensInRange, InRange, Answer, TakeToken, Available, RefillPerSecond;
      var tokens := Available(rate, buckets, key, now);
      if tokens >= 1.0 {
        buckets := buckets[key := Bucket(tokens - 1.0, now)];
        MaybePrune(now);
        return 0.0;
      }
      SameSize(buckets, key, Bucket(tokens, now));
      buckets := buckets[key := Bucket(tokens, now)];
      return (1.0 - tokens) / RefillPerSecond(rate);
    }

    method MaybePrune(now: real)
      requires hits.Keys == buckets.Keys && TokensInRange(rate, buckets)
      modifies this`buckets, this`hits
      ensures Valid() && Pruned(rate, old(buckets), now, buckets)
      ensures forall k | k in hits :: k in old(hits) && hits[k] == old(hits)[k]
    {
      if |buckets| < PRUNE_THRESHOLD {
        return;
      }
      RefillPositive(rate);
      var fullAfter := Capacity(rate) / RefillPerSecond(rate);
      buckets := map k | k in buckets && now - buckets[k].last < fullAfter :: buckets[k];
      hits := map k | k in hits && k in buckets :: hits[k];
      if |buckets| <= MAX_BUCKETS {
        return;
      }
      EvictLeastRecent();
    }

    /** A flood of busy keys: only the most recently seen ones keep their bucket. */
    method EvictLeastRecent()
      requires hits.Keys == buckets.Keys && |buckets| > MAX_BUCKETS && TokensInRange(rate, buckets)
      modifies this`buckets, this`hits
      ensures Valid()
      ensures buckets == Restrict(old(buckets), buckets.Keys)
      ensures MostRecent(old(buckets), buckets.Keys, PRUNE_THRESHOLD) && |buckets.Keys| == 1024
      ensures forall k | k in hits :: k in old(hits) && hits[k] == old(hits)[k]
    {
      MostRecentExists(buckets, PRUNE_THRESHOLD);
      var recent: set<string> :| MostRecent(buckets, recent, PRUNE_THRESHOLD);
      buckets := Restrict(buckets, recent);
      assert buckets.Keys == recent;
      assert |buckets.Keys| == |buckets|;
      hits := map k | k in hits && k in buckets :: hits[k];
    }
  }

  // ---------------------------------------------------------------- whole runs

  /** One call of a run, with its answer and the buckets after it. */
  datatype Made = Made(key: string, now: real, answer: real, after: Buckets)

  /** A run of the limiter: each call follows from the buckets before it, and time does not go back. */
  ghost predicate IsRun(rate: Rate, m: Buckets, clock: real, calls: seq<Made>)
    decreases |calls|
  {
    calls == [] ||
    (clock <= calls[0].now && Call(rate, m, calls[0].key, calls[0].now, calls[0].answer, calls[0].after) &&
     IsRun(rate, calls[0].after, calls[0].now, calls[1..]))
  }

  /** No call of the run flood-evicts the key. */
  ghost predicate Spared(rate: Rate, m: Buckets, calls: seq<Made>, key: string)
    decreases |calls|
  {
    calls == [] ||
    (!FloodEvicts(rate, m, calls[0].key, calls[0].now, calls[0].after, key) &&
     Spared(rate, calls[0].after, calls[1..], key))
  }

  function TimesOf(calls: seq<Made>, key: string): seq<real> {
    if calls == [] then []
    else (if calls[0].key == key then [calls[0].now] else []) + TimesOf(calls[1..], key)
  }

  function AnswersOf(calls: seq<Made>, key: string): seq<real> {
    if calls == [] then []
    else (if calls[0].key == key then [calls[0].answer] else []) + AnswersOf(calls[1..], key)
  }

  /** The pruned map holds what the key's own history holds, or has dropped it when it was full again. */
  ghost predicate Mirrors(rate: Rate, m: Buckets, key: string, b: Option<Bucket>, clock: real) {
    && InRange(rate, b) && (b.Some? ==> b.value.last <= clock)
    && (BucketOf(m, key) == b ||
        (key !in m && b.Some? && clock - b.value.last >= Capacity(rate) / RefillPerSecond(rate)))
  }

  /** A bucket that has been idle until it is full again answers like no bucket at all. */
  lemma IdleIsFull(rate: Rate, b: Bucket, now: real)
    requires InRange(rate, Some(b)) && now - b.last >= Capacity(rate) / RefillPerSecond(rate)
    ensures Answer(rate, Some(b), now) == Answer(rate, None, now)
    ensures TakeToken(rate, Some(b), now) == TakeToken(rate, None, now)
  {
    RefillPositive(rate);
    RefillAdds(rate, 60.0, now - b.last - 60.0);
    RefillGrows(rate, now - b.last - 60.0);
    assert Refill(rate, 60.0) == Capacity(rate);
    assert Refill(rate, 0.0) == 0.0;
  }

  lemma MirrorAnswers(rate: Rate, m: Buckets, key: string, b: Option<Bucket>, clock: real, now: real)
    requires Mirrors(rate, m, key, b, clock) && clock <= now
    ensures Answer(rate, BucketOf(m, key), now) == Answer(rate, b, now)
    ensures TakeToken(rate, BucketOf(m, key), now) == TakeToken(rate, b, now)
  {
    if BucketOf(m, key) != b {
      IdleIsFull(rate, b.value, now);
    }
  }

  lemma MirrorStep(rate: Rate, m: Buckets, c: Made, key: string, b: Option<Bucket>, clock: real)
    requires Mirrors(rate, m, key, b, clock) && clock <= c.now
    requires Call(rate, m, c.key, c.now, c.answer, c.after)
    requires !FloodEvicts(rate, m, c.key, c.now, c.after, key)
    ensures Mirrors(rate, c.after, key, if c.key == key then Some(TakeToken(rate, b, c.now)) else b, c.now)
    ensures c.key == key ==> c.answer == Answer(rate, b, c.now)
  {
    MirrorAnswers(rate, m, key, b, clock, c.now);
    TakeKeepsRange(rate, b, c.now);
    var m' := m[c.key := TakeToken(rate, BucketOf(m, c.key), c.now)];
    assert key in c.after ==> key in m' && c.after[key] == m'[key];
  }

  lemma {:induction false} MirrorRun(rate: Rate, m: Buckets, clock: real, calls: seq<Made>,
                                     key: string, b: Option<Bucket>)
    requires IsRun(rate, m, clock, calls) && Spared(rate, m, calls, key) && Mirrors(rate, m, key, b, clock)
    ensures AnswersOf(calls, key) == Answers(rate, b, TimesOf(calls, key))
    ensures forall t | t in TimesOf(calls, key) :: clock <= t
    ensures Forward(b, TimesOf(calls, key))
    decreases |calls|
  {
    if calls != [] {
      var c := calls[0];
      var b' := if c.key == key then Some(TakeToken(rate, b, c.now)) else b;
      MirrorStep(rate, m, c, key, b, clock);
      MirrorRun(rate, c.after, c.now, calls[1..], key, b');
      var rest := TimesOf(calls[1..], key);
      if c.key == key {
        assert TimesOf(calls, key)[1..] == rest;
        assert TimesOf(calls, key) == [c.now] + rest;
        forall j | 0 <= j < |rest| ensures c.now <= rest[j] {
          assert rest[j] in rest;
        }
      } else {
        assert TimesOf(calls, key) == rest;
        assert AnswersOf(calls, key) == AnswersOf(calls[1..], key);
      }
    }
  }

  /**
   Pruning is invisible.  In any run over any keys, a key that is never flood-evicted gets exactly
   the answers of its own history, as if it had a bucket of its own that is never dropped.
   */
  lemma PruningIsInvisible(rate: Rate, clock: real, calls: seq<Made>, key: string)
    requires IsRun(rate, map[], clock, calls) && Spared(rate, map[], calls, key)
    ensures AnswersOf(calls, key) == Answers(rate, None, TimesOf(calls, key))
    ensures Forward(None, TimesOf(calls, key))
  {
    MirrorRun(rate, map[], clock, calls, key, None);
  }

  /** A run in which no call finds more than the limit of busy buckets spares every key. */
  ghost predicate NoFlood(rate: Rate, m: Buckets, calls: seq<Made>)
    decreases |calls|
  {
    calls == [] ||
    (var m' := m[calls[0].key := TakeToken(rate, BucketOf(m, calls[0].key), calls[0].now)];
     (|m'| < PRUNE_THRESHOLD || |NotIdle(rate, m', calls[0].now)| <= MAX_BUCKETS) &&
     NoFlood(rate, calls[0].after, calls[1..]))
  }

  lemma {:induction false} NoFloodSparesAll(rate: Rate, m: Buckets, clock: real, calls: seq<Made>, key: string)
    requires IsRun(rate, m, clock, calls) && NoFlood(rate, m, calls)
    ensures Spared(rate, m, calls, key)
    decreases |calls|
  {
    if calls != [] {
      NoFloodSparesAll(rate, calls[0].after, calls[0].now, calls[1..], key);
    }
  }

  /** The limiter's guarantee: a key that is not flood-evicted gets at most rate * (1 + T / 60)
      grants out of any stretch of its calls that spans T seconds, whoever else calls. */
  lemma LimiterWindowBound(rate: Rate, clock: real, calls: seq<Made>, key: string, i: nat, j: nat, T: real)
    requires IsRun(rate, map[], clock, calls) && Spared(rate, map[], calls, key)
    requires var times := TimesOf(calls, key);
             i < j <= |times| && times[j - 1] - times[i] <= T
    ensures |AnswersOf(calls, key)| == |TimesOf(calls, key)|
    ensures GrantCount(AnswersOf(calls, key)[i..j]) as real <= rate as real * (1.0 + T / 60.0)
  {
    PruningIsInvisible(rate, clock, calls, key);
    WindowBound(rate, TimesOf(calls, key), i, j, T);
  }

  /** And it is granted every call that this bound allows. */
  lemma LimiterGrantedIff(rate: Rate, clock: real, calls: seq<Made>, key: string, j: nat)
    requires IsRun(rate, map[], clock, calls) && Spared(rate, map[], calls, key)
    requires j < |TimesOf(calls, key)|
    ensures |AnswersOf(calls, key)| == |TimesOf(calls, key)|
    ensures AnswersOf(calls, key)[j] == 0.0 <==>
            forall i: nat | i <= j :: OneMoreFits(rate, TimesOf(calls, key), i, j)
  {
    PruningIsInvisible(rate, clock, calls, key);
    GrantedIff(rate, TimesOf(calls, key), j);
    hide OneMoreFits, Answers, AnswersOf, TimesOf, IsRun, Spared;
  }
}
