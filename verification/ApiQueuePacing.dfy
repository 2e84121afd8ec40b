/** How far apart the queue's grants are, how long a pause lasts, and that a waiter gets its slot. */
module ApiQueuePacing {
  import opened Options
  import opened ApiQueue
  import opened ApiQueueAccounting

  // ---------------------------------------------------------------- spacing of grants

  lemma {:induction false} GrantsAreSpaced(cfg: Config, q: Queue, clock: real, events: seq<Event>, key: string)
    requires IsRun(cfg, q, clock, events)
    ensures var g := GrantTimes(cfg, q, clock, events, key);
            && (g != [] ==> g[0] >= SourceOf(q, key).lastRequestAt + cfg(key).minInterval)
            && forall i | 0 <= i < |g| - 1 :: g[i + 1] >= g[i] + cfg(key).minInterval
    decreases |events|
  {
    if events != [] {
      var q' := Step(cfg, q, events[0]);
      GrantsAreSpaced(cfg, q', ClockAfter(clock, events[0]), events[1..], key);
      if !IsGrant(cfg, q, events[0], key) {
        assert SourceOf(q', key).lastRequestAt == SourceOf(q, key).lastRequestAt;
      }
    }
  }

  lemma {:induction false} SpacingAddsUp(g: seq<real>, interval: real, i: nat, j: nat)
    requires i <= j < |g|
    requires forall m | 0 <= m < |g| - 1 :: g[m + 1] >= g[m] + interval
    ensures (j - i) as real * interval <= g[j] - g[i]
    decreases j - i
  {
    if i < j {
      SpacingAddsUp(g, interval, i, j - 1);
      assert (j - i) as real * interval == (j - 1 - i) as real * interval + interval;
    }
  }

  /** The n entries of g from index first on lie within T seconds of start. */
  ghost predicate Within(g: seq<real>, first: nat, n: nat, start: real, T: real) {
    first + n <= |g| && forall i | first <= i < first + n :: start <= g[i] <= start + T
  }

  lemma SpacedWithin(g: seq<real>, interval: real, first: nat, n: nat, start: real, T: real)
    requires n >= 1 && Within(g, first, n, start, T)
    requires forall m | 0 <= m < |g| - 1 :: g[m + 1] >= g[m] + interval
    ensures (n - 1) as real * interval <= T
  {
    SpacingAddsUp(g, interval, first, first + n - 1);
    assert (first + n - 1) - first == n - 1;
  }

  /**
   The rate bound.  In any run, from any state, the grants of a key that fall within T seconds
   number n with (n - 1) * min_interval <= T.  Slots of other keys, pauses, cancellations and
   releases in between make no difference.
   */
  lemma GrantRateBound(cfg: Config, q: Queue, clock: real, events: seq<Event>, key: string,
                       first: nat, n: nat, start: real, T: real)
    requires IsRun(cfg, q, clock, events)
    requires n >= 1 && Within(GrantTimes(cfg, q, clock, events, key), first, n, start, T)
    ensures (n - 1) as real * cfg(key).minInterval <= T
  {
    GrantsAreSpaced(cfg, q, clock, events, key);
    SpacedWithin(GrantTimes(cfg, q, clock, events, key), cfg(key).minInterval, first, n, start, T);
  }

  // ---------------------------------------------------------------- pauses

  /** A pause holds: in any continuation, no grant of the key comes before the pause has ended. */
  lemma {:induction false} NoGrantDuringPause(cfg: Config, q: Queue, clock: real, events: seq<Event>, key: string)
    requires IsRun(cfg, q, clock, events)
    ensures forall t | t in GrantTimes(cfg, q, clock, events, key) :: t >= SourceOf(q, key).pauseUntil
    ensures SourceOf(After(cfg, q, clock, events), key).pauseUntil >= SourceOf(q, key).pauseUntil
    decreases |events|
  {
    if events != [] {
      NoGrantDuringPause(cfg, Step(cfg, q, events[0]), ClockAfter(clock, events[0]), events[1..], key);
    }
  }

  /** The clock bounds that hold of every key at every moment. */
  ghost predicate Bounded(q: Queue, clock: real) {
    forall key: string ::
      SourceOf(q, key).pauseUntil <= clock + MAX_SOURCE_PAUSE_SECONDS && SourceOf(q, key).lastRequestAt <= clock
  }

  lemma {:induction false} RunStaysBounded(cfg: Config, q: Queue, clock: real, events: seq<Event>)
    requires IsRun(cfg, q, clock, events) && Bounded(q, clock)
    ensures Bounded(After(cfg, q, clock, events), ClockAtEnd(clock, events))
    decreases |events|
  {
    if events != [] {
      var q', clock' := Step(cfg, q, events[0]), ClockAfter(clock, events[0]);
      forall key: string
        ensures SourceOf(q', key).pauseUntil <= clock' + MAX_SOURCE_PAUSE_SECONDS
        ensures SourceOf(q', key).lastRequestAt <= clock'
      {
        var s := SourceOf(q, key);
        assert s.pauseUntil <= clock + MAX_SOURCE_PAUSE_SECONDS && s.lastRequestAt <= clock;
      }
      RunStaysBounded(cfg, q', clock', events[1..]);
    }
  }

  /** Whatever a provider asks for, no key is ever paused for more than an hour from now. */
  lemma PausesAreBounded(cfg: Config, clock: real, events: seq<Event>, key: string)
    requires clock >= 0.0 && IsRun(cfg, EMPTY_QUEUE, clock, events)
    ensures SourceOf(After(cfg, EMPTY_QUEUE, clock, events), key).pauseUntil
            <= ClockAtEnd(clock, events) + 3600.0
  {
    RunStaysBounded(cfg, EMPTY_QUEUE, clock, events);
  }

  /** Until when a pause of the key that asks for a positive wait lasts: at most an hour. */
  predicate AsksUntil(e: Event, key: string, until: real) {
    e.PauseEv? && e.key == key && e.seconds > 0.0 && until == e.now + (if e.seconds < 3600.0 then e.seconds else 3600.0)
  }

  /** Only a pause of the key moves its end, to the later one of the two. */
  lemma StepMovesPause(cfg: Config, q: Queue, e: Event, key: string)
    requires Enabled(q, e)
    ensures var before, after := SourceOf(q, key).pauseUntil, SourceOf(Step(cfg, q, e), key).pauseUntil;
            && after >= before
            && (forall t | AsksUntil(e, key, t) :: after >= t)
            && (after == before || AsksUntil(e, key, after))
  {
  }

  lemma {:induction false} PauseFollowsEvents(cfg: Config, q: Queue, clock: real, events: seq<Event>, key: string)
    requires IsRun(cfg, q, clock, events)
    ensures var before := SourceOf(q, key).pauseUntil;
            var after := SourceOf(After(cfg, q, clock, events), key).pauseUntil;
            && after >= before
            && (forall e, t | e in events && AsksUntil(e, key, t) :: after >= t)
            && (after == before || exists e :: e in events && AsksUntil(e, key, after))
    decreases |events|
  {
    hide AsksUntil, Step, Enabled;
    if events != [] {
      StepMovesPause(cfg, q, events[0], key);
      PauseFollowsEvents(cfg, Step(cfg, q, events[0]), ClockAfter(clock, events[0]), events[1..], key);
      assert forall e :: e in events <==> e == events[0] || e in events[1..];
    }
  }

  /**
   The length of a pause.  In any run from the empty queue, a key is paused until the latest of the
   ends that the pauses of the run ask for, each counted from its own time and at most an hour later;
   and until the time 0 when there is none.
   */
  lemma PauseIsHistory(cfg: Config, clock: real, events: seq<Event>, key: string)
    requires IsRun(cfg, EMPTY_QUEUE, clock, events)
    ensures var until := SourceOf(After(cfg, EMPTY_QUEUE, clock, events), key).pauseUntil;
            && until >= 0.0
            && (forall e, t | e in events && AsksUntil(e, key, t) :: t <= until)
            && (until == 0.0 || exists e :: e in events && AsksUntil(e, key, until))
  {
    PauseFollowsEvents(cfg, EMPTY_QUEUE, clock, events, key);
  }

  // ---------------------------------------------------------------- waiters finish

  /** A run without a grant or a pause of the key. */
  ghost predicate Quiet(cfg: Config, q: Queue, clock: real, events: seq<Event>, key: string)
    requires IsRun(cfg, q, clock, events)
    decreases |events|
  {
    events == [] ||
    (!IsGrant(cfg, q, events[0], key) && !(events[0].PauseEv? && events[0].key == key) &&
     Quiet(cfg, Step(cfg, q, events[0]), ClockAfter(clock, events[0]), events[1..], key))
  }

  /** The times of the passes that one request makes through the wait loop. */
  ghost function PollTimes(events: seq<Event>, id: string): seq<real> {
    if events == [] then []
    else if events[0].PollEv? && events[0].id == id then [events[0].now] + PollTimes(events[1..], id)
    else PollTimes(events[1..], id)
  }

  /** The request sleeps between its passes, at least as long as each pass told it to. */
  ghost predicate Sleeps(cfg: Config, q: Queue, clock: real, events: seq<Event>, id: string, key: string)
    requires IsRun(cfg, q, clock, events)
    decreases |events|
  {
    events == [] ||
    ((events[0].PollEv? && events[0].id == id && PollTimes(events[1..], id) != [] ==>
        PollTimes(events[1..], id)[0] >= events[0].now + SleepAfter(q, cfg(key), key, events[0].now)) &&
     Sleeps(cfg, Step(cfg, q, events[0]), ClockAfter(clock, events[0]), events[1..], id, key))
  }

  lemma QuietStepKeeps(cfg: Config, q: Queue, e: Event, key: string)
    requires Enabled(q, e) && !IsGrant(cfg, q, e, key) && !(e.PauseEv? && e.key == key)
    ensures Earliest(Step(cfg, q, e), cfg(key), key) == Earliest(q, cfg(key), key)
    ensures SourceOf(Step(cfg, q, e), key).active <= SourceOf(q, key).active
  {
  }

  /** A pass that finds the pacing window closed sleeps until it opens, but at most a second. */
  lemma BlockedPass(cfg: Config, q: Queue, e: Event, key: string)
    requires Enabled(q, e) && e.PollEv? && q.requests[e.id].pacingKey == key && !IsGrant(cfg, q, e, key)
    requires SourceOf(q, key).active < cfg(key).maxConcurrent
    ensures e.now < Earliest(q, cfg(key), key)
    ensures SleepAfter(q, cfg(key), key, e.now) == Min(Earliest(q, cfg(key), key) - e.now, 1.0)
  {
  }

  lemma OneSecondLess(earliest: real, now: real, rest: seq<real>)
    requires now < earliest
    requires rest != [] ==> now + Min(earliest - now, 1.0) <= rest[0] < earliest && |rest| <= Ceil(earliest - rest[0])
    ensures 1 + |rest| <= Ceil(earliest - now)
  {
  }

  lemma StepKeepsKey(cfg: Config, q: Queue, e: Event, id: string)
    requires Enabled(q, e) && !(e.EnterEv? && e.id == id)
    ensures id in Step(cfg, q, e).requests ==>
              id in q.requests && Step(cfg, q, e).requests[id].pacingKey == q.requests[id].pacingKey
  {
  }

  /** A request polls for its own key as long as it waits, and in a quiet run each pass finds the
      pacing window still closed, so the passes count down the seconds that are left. */
  lemma {:induction false} PollsCountDown(cfg: Config, q: Queue, clock: real, events: seq<Event>,
                                          id: string, key: string)
    requires IsRun(cfg, q, clock, events) && Quiet(cfg, q, clock, events, key)
    requires Sleeps(cfg, q, clock, events, id, key)
    requires id in q.requests ==> q.requests[id].pacingKey == key
    requires id !in Entered(events)
    requires SourceOf(q, key).active < cfg(key).maxConcurrent
    ensures var polls := PollTimes(events, id);
            polls != [] ==> clock <= polls[0] < Earliest(q, cfg(key), key) &&
                            |polls| <= Ceil(Earliest(q, cfg(key), key) - polls[0])
    decreases |events|
  {
    if events != [] {
      var e, q' := events[0], Step(cfg, q, events[0]);
      assert Entered(events[1..]) <= Entered(events);
      assert e.EnterEv? ==> e.id in Entered(events);
      QuietStepKeeps(cfg, q, e, key);
      StepKeepsKey(cfg, q, e, id);
      hide Step, Entered, Earliest, IsGrant, SleepAfter, Ceil, Min, SourceOf;
      PollsCountDown(cfg, q', ClockAfter(clock, e), events[1..], id, key);
      if e.PollEv? && e.id == id {
        BlockedPass(cfg, q, e, key);
        OneSecondLess(Earliest(q, cfg(key), key), e.now, PollTimes(events[1..], id));
      }
    }
  }

  /**
   Every waiter gets its turn.  Take any run from the empty queue, and from there any further run
   in which the key has a free slot and is neither paused nor granted to anyone, whatever other
   keys and other waiters do.  A request for the key then makes at most
   ceil(max(3600, min_interval)) passes: the pass after that one takes the slot.
   */
  lemma WaiterFinishes(cfg: Config, clock: real, history: seq<Event>, events: seq<Event>, id: string)
    requires clock >= 0.0 && IsRun(cfg, EMPTY_QUEUE, clock, history)
    requires var q, now := After(cfg, EMPTY_QUEUE, clock, history), ClockAtEnd(clock, history);
             && IsRun(cfg, q, now, events)
             && Waits(q, id) && id !in Entered(events)
             && var key := q.requests[id].pacingKey;
                && SourceOf(q, key).active < cfg(key).maxConcurrent
                && Quiet(cfg, q, now, events, key)
                && Sleeps(cfg, q, now, events, id, key)
    ensures var key := After(cfg, EMPTY_QUEUE, clock, history).requests[id].pacingKey;
            |PollTimes(events, id)| <= Ceil(Max(MAX_SOURCE_PAUSE_SECONDS, cfg(key).minInterval))
  {
    hide IsRun, After, ClockAtEnd, Quiet, Sleeps, PollTimes, Entered;
    var q, now := After(cfg, EMPTY_QUEUE, clock, history), ClockAtEnd(clock, history);
    var key := q.requests[id].pacingKey;
    RunStaysBounded(cfg, EMPTY_QUEUE, clock, history);
    assert SourceOf(q, key).lastRequestAt <= now;
    PollsCountDown(cfg, q, now, events, id, key);
  }

  /**
   How long a pause holds a waiter.  If no pause of the history asks for more than s seconds from
   now on, a waiter with a free slot and no further pause or grant makes at most
   ceil(max(s, min_interval)) passes before the one that takes the slot.
   */
  lemma WaiterFinishesAfterPause(cfg: Config, clock: real, history: seq<Event>, events: seq<Event>, id: string, s: real)
    requires clock >= 0.0 && s >= 0.0 && IsRun(cfg, EMPTY_QUEUE, clock, history)
    requires var q, now := After(cfg, EMPTY_QUEUE, clock, history), ClockAtEnd(clock, history);
             && IsRun(cfg, q, now, events)
             && Waits(q, id) && id !in Entered(events)
             && var key := q.requests[id].pacingKey;
                && (forall e, t | e in history && AsksUntil(e, key, t) :: t <= now + s)
                && SourceOf(q, key).active < cfg(key).maxConcurrent
                && Quiet(cfg, q, now, events, key)
                && Sleeps(cfg, q, now, events, id, key)
    ensures var key := After(cfg, EMPTY_QUEUE, clock, history).requests[id].pacingKey;
            |PollTimes(events, id)| <= Ceil(Max(s, cfg(key).minInterval))
  {
    hide IsRun, After, ClockAtEnd, Quiet, Sleeps, PollTimes, Entered, AsksUntil;
    var q, now := After(cfg, EMPTY_QUEUE, clock, history), ClockAtEnd(clock, history);
    var key := q.requests[id].pacingKey;
    RunStaysBounded(cfg, EMPTY_QUEUE, clock, history);
    ClockRuns(cfg, EMPTY_QUEUE, clock, history);
    PauseIsHistory(cfg, clock, history, key);
    assert SourceOf(q, key).lastRequestAt <= now;
    PollsCountDown(cfg, q, now, events, id, key);
  }

  lemma {:induction false} ClockRuns(cfg: Config, q: Queue, clock: real, events: seq<Event>)
    requires IsRun(cfg, q, clock, events)
    ensures clock <= ClockAtEnd(clock, events)
    decreases |events|
  {
    hide Step, Enabled;
    if events != [] {
      ClockRuns(cfg, Step(cfg, q, events[0]), ClockAfter(clock, events[0]), events[1..]);
    }
  }

  // ---------------------------------------------------------------- what a blocked pass says

  /**
   A pass without a slot waits a quarter of a second for another caller to finish, and otherwise until
   the pacing window opens, a second at most.  The request then shows as rate limited exactly when its
   key is paused for one of the five reasons that mean so.
   */
  lemma BlockedPassShows(q: Queue, pacing: Pacing, id: string, now: real, at: real)
    requires Waits(q, id) && !Grants(q, pacing, q.requests[id].pacingKey, now)
    ensures var key := q.requests[id].pacingKey;
            var s, shown := SourceOf(q, key), Poll(q, pacing, id, now, at).requests[id];
            var sleep := SleepAfter(q, pacing, key, now);
            && 0.0 < sleep <= 1.0
            && (s.active >= pacing.maxConcurrent ==>
                  sleep == 0.25 && shown.state == Waiting && shown.waitReason == "concurrency")
            && (s.active < pacing.maxConcurrent ==>
                  && (sleep == 1.0 || now + sleep == Earliest(q, pacing, key))
                  && shown.waitReason == (if s.waitReason == "" then "pacing" else s.waitReason)
                  && (shown.state == RateLimited <==>
                        s.pauseUntil > now && s.waitReason in
                          {"retry-after", "token_quota", "request_quota", "github_quota", "rate_limit"}))
            && (shown.state == RateLimited || shown.state == Waiting)
  {
    assert "pacing"[0] == 'p' && "retry-after"[0] == 'r' && "token_quota"[0] == 't' && "request_quota"[0] == 'r';
    assert "github_quota"[0] == 'g' && "rate_limit"[0] == 'r';
  }
}
