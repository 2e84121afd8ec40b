/**
 HTTP calls rather than slots.  The queue paces slots; the retry loop of backend/resilient_client.py
 makes further calls inside a slot after a backoff of its own.  A slot's first call starts with it.
 */
module CallPacing {
  import opened Options
  import opened ApiQueue
  import opened ApiQueueAccounting
  import opened ApiQueuePacing
  import Client = ResilientClient

  /** A step of the queue, or another try in the slot of the id, after the backoff of the last one. */
  datatype Action = QueueStep(e: Event) | Again(id: string, retryAfter: real, t: real)

  /** For each slot, how many calls it has made and when it made the latest one. */
  datatype World = World(q: Queue, clock: real, made: map<string, nat>, last: map<string, real>)

  const START := World(EMPTY_QUEUE, 0.0, map[], map[])

  predicate Possible(cfg: Config, retries: nat, w: World, a: Action) {
    match a
    case QueueStep(e) => Enabled(w.q, e) && Timely(w.clock, e)
    case Again(id, retryAfter, t) =>
      && IsActive(w.q, id) && id in w.made && id in w.last && 1 <= w.made[id] <= retries
      && w.clock <= t && w.last[id] + Client.RetryDelay(retryAfter, w.made[id] - 1) <= t
  }

  /** The event hands out a slot of some key. */
  predicate HandsOut(cfg: Config, q: Queue, e: Event)
    requires Enabled(q, e)
  {
    e.PollEv? && IsGrant(cfg, q, e, q.requests[e.id].pacingKey)
  }

  function Next(cfg: Config, retries: nat, w: World, a: Action): World
    requires Possible(cfg, retries, w, a)
  {
    match a
    case QueueStep(e) =>
      var w' := w.(q := Step(cfg, w.q, e), clock := ClockAfter(w.clock, e));
      if HandsOut(cfg, w.q, e) then w'.(made := w.made[e.id := 1], last := w.last[e.id := e.at]) else w'
    case Again(id, _, t) => w.(clock := t, made := w.made[id := w.made[id] + 1], last := w.last[id := t])
  }

  ghost predicate IsCallRun(cfg: Config, retries: nat, w: World, actions: seq<Action>)
    decreases |actions|
  {
    actions == [] ||
    (Possible(cfg, retries, w, actions[0]) && IsCallRun(cfg, retries, Next(cfg, retries, w, actions[0]), actions[1..]))
  }

  ghost function WorldAfter(cfg: Config, retries: nat, w: World, actions: seq<Action>): World
    requires IsCallRun(cfg, retries, w, actions)
    decreases |actions|
  {
    if actions == [] then w else WorldAfter(cfg, retries, Next(cfg, retries, w, actions[0]), actions[1..])
  }

  /** The times of the calls that an action makes for the key. */
  function CallOf(cfg: Config, retries: nat, w: World, a: Action, key: string): seq<real>
    requires Possible(cfg, retries, w, a)
  {
    match a
    case QueueStep(e) => if IsGrant(cfg, w.q, e, key) then [e.at] else []
    case Again(id, _, t) => if w.q.requests[id].pacingKey == key then [t] else []
  }

  /** The times of the HTTP calls for a key, in order. */
  ghost function CallTimes(cfg: Config, retries: nat, w: World, actions: seq<Action>, key: string): seq<real>
    requires IsCallRun(cfg, retries, w, actions)
    decreases |actions|
  {
    if actions == [] then []
    else CallOf(cfg, retries, w, actions[0], key) +
         CallTimes(cfg, retries, Next(cfg, retries, w, actions[0]), actions[1..], key)
  }

  // ---------------------------------------------------------------- the slots of a run of calls

  function QueueEvents(actions: seq<Action>): seq<Event> {
    if actions == [] then []
    else (if actions[0].QueueStep? then [actions[0].e] else []) + QueueEvents(actions[1..])
  }

  /** Without its further tries a run of calls is a run of the queue. */
  lemma {:induction false} CallRunIsRun(cfg: Config, retries: nat, w: World, clock: real, actions: seq<Action>)
    requires IsCallRun(cfg, retries, w, actions) && clock <= w.clock
    ensures IsRun(cfg, w.q, clock, QueueEvents(actions))
    ensures After(cfg, w.q, clock, QueueEvents(actions)) == WorldAfter(cfg, retries, w, actions).q
    ensures ClockAtEnd(clock, QueueEvents(actions)) <= WorldAfter(cfg, retries, w, actions).clock
    decreases |actions|
  {
    if actions != [] {
      var a, rest := actions[0], actions[1..];
      var w' := Next(cfg, retries, w, a);
      var clock' := if a.QueueStep? then ClockAfter(clock, a.e) else clock;
      CallRunIsRun(cfg, retries, w', clock', rest);
      hide Enabled, Step, IsGrant;
      if a.QueueStep? {
        assert QueueEvents(actions)[0] == a.e && QueueEvents(actions)[1..] == QueueEvents(rest);
      } else {
        assert QueueEvents(actions) == QueueEvents(rest);
      }
    }
  }

  // ---------------------------------------------------------------- how many calls

  /** Every slot has made at least its first call, and no more than it may. */
  ghost predicate CallsInRange(retries: nat, w: World) {
    forall id | IsActive(w.q, id) ::
      id in w.made && id in w.last && 1 <= w.made[id] <= retries + 1 && w.last[id] <= w.clock
  }

  lemma OnlyGrantsActivate(cfg: Config, q: Queue, e: Event, id: string)
    requires Enabled(q, e) && IsActive(Step(cfg, q, e), id)
    ensures (HandsOut(cfg, q, e) && e.id == id) ||
            (IsActive(q, id) && q.requests[id].pacingKey == Step(cfg, q, e).requests[id].pacingKey)
  {
  }

  lemma NextKeepsRange(cfg: Config, retries: nat, w: World, a: Action)
    requires CallsInRange(retries, w) && Possible(cfg, retries, w, a)
    ensures CallsInRange(retries, Next(cfg, retries, w, a))
    ensures w.clock <= Next(cfg, retries, w, a).clock
  {
    var w' := Next(cfg, retries, w, a);
    if a.QueueStep? {
      forall id | IsActive(w'.q, id) ensures IsActive(w.q, id) || (HandsOut(cfg, w.q, a.e) && a.e.id == id) {
        OnlyGrantsActivate(cfg, w.q, a.e, id);
      }
    }
    hide Step, Enabled, IsActive, IsGrant;
  }

  lemma {:induction false} RunKeepsRange(cfg: Config, retries: nat, w: World, actions: seq<Action>)
    requires CallsInRange(retries, w) && IsCallRun(cfg, retries, w, actions)
    ensures CallsInRange(retries, WorldAfter(cfg, retries, w, actions))
    decreases |actions|
  {
    if actions != [] {
      NextKeepsRange(cfg, retries, w, actions[0]);
      RunKeepsRange(cfg, retries, Next(cfg, retries, w, actions[0]), actions[1..]);
    }
  }

  /** The tries that the active slots of a key still have. */
  ghost function TriesLeft(retries: nat, w: World, key: string): set<(string, int)>
    requires CallsInRange(retries, w)
  {
    set id, k | id in ActiveIds(w.q, key) && w.made[id] <= k <= retries :: (id, k)
  }

  ghost function AllTries(ids: set<string>, retries: nat): set<(string, int)> {
    set id, k | id in ids && 1 <= k <= retries :: (id, k)
  }

  lemma {:induction false} TriesOfOne(id: string, retries: nat)
    ensures |AllTries({id}, retries)| == retries
  {
    if retries == 0 {
      assert AllTries({id}, 0) == {};
    } else {
      TriesOfOne(id, retries - 1);
      assert AllTries({id}, retries) == AllTries({id}, retries - 1) + {(id, retries)};
    }
  }

  lemma OneMoreTime(n: nat, k: nat)
    ensures (n + 1) * k == n * k + k
  {
  }

  lemma MoreTimes(n: nat, m: nat, k: nat)
    requires n <= m
    ensures n * k <= m * k
  {
  }

  lemma {:induction false} TriesCounted(ids: set<string>, retries: nat)
    ensures |AllTries(ids, retries)| == |ids| * retries
  {
    if ids == {} {
      assert AllTries(ids, retries) == {};
    } else {
      var id :| id in ids;
      TriesCounted(ids - {id}, retries);
      TriesOfOne(id, retries);
      assert AllTries(ids, retries) == AllTries(ids - {id}, retries) + AllTries({id}, retries);
      OneMoreTime(|ids - {id}|, retries);
    }
  }

  lemma {:induction false} SubsetCount<T>(a: set<T>, b: set<T>)
    requires a <= b
    ensures |a| <= |b|
  {
    if a != {} {
      var x :| x in a;
      SubsetCount(a - {x}, b - {x});
    }
  }

  lemma TryUsesOne(cfg: Config, retries: nat, w: World, a: Action, key: string)
    requires CallsInRange(retries, w) && Possible(cfg, retries, w, a) && a.Again?
    requires CallsInRange(retries, Next(cfg, retries, w, a))
    ensures |CallOf(cfg, retries, w, a, key)| + |TriesLeft(retries, Next(cfg, retries, w, a), key)|
            <= |TriesLeft(retries, w, key)|
  {
    var left, left' := TriesLeft(retries, w, key), TriesLeft(retries, Next(cfg, retries, w, a), key);
    if w.q.requests[a.id].pacingKey == key {
      assert (a.id, w.made[a.id]) in left && left' <= left - {(a.id, w.made[a.id])};
      SubsetCount(left', left - {(a.id, w.made[a.id])});
    } else {
      assert left' <= left;
      SubsetCount(left', left);
    }
  }

  /** What a step of the queue adds to the tries of a key: nothing, or those of the slot it hands out. */
  lemma TriesAfterStep(cfg: Config, retries: nat, w: World, e: Event, key: string)
    requires CallsInRange(retries, w) && Possible(cfg, retries, w, QueueStep(e))
    requires CallsInRange(retries, Next(cfg, retries, w, QueueStep(e)))
    ensures TriesLeft(retries, Next(cfg, retries, w, QueueStep(e)), key) <=
            TriesLeft(retries, w, key) + (if IsGrant(cfg, w.q, e, key) then AllTries({e.id}, retries) else {})
  {
    var w' := Next(cfg, retries, w, QueueStep(e));
    forall id | id in ActiveIds(w'.q, key)
      ensures (HandsOut(cfg, w.q, e) && e.id == id && IsGrant(cfg, w.q, e, key)) || id in ActiveIds(w.q, key)
    {
      OnlyGrantsActivate(cfg, w.q, e, id);
      if HandsOut(cfg, w.q, e) && e.id == id {
        GrantKeepsKey(cfg, w.q, e);
      }
    }
    hide Step, Enabled, IsGrant;
  }

  lemma GrantKeepsKey(cfg: Config, q: Queue, e: Event)
    requires Enabled(q, e) && HandsOut(cfg, q, e)
    ensures e.id in Step(cfg, q, e).requests && Step(cfg, q, e).requests[e.id].pacingKey == q.requests[e.id].pacingKey
  {
  }

  /** A further try uses up one of those that are left; only a grant adds to them. */
  lemma StepUsesTries(cfg: Config, retries: nat, w: World, a: Action, key: string)
    requires CallsInRange(retries, w) && Possible(cfg, retries, w, a)
    ensures CallsInRange(retries, Next(cfg, retries, w, a))
    ensures |CallOf(cfg, retries, w, a, key)| + |TriesLeft(retries, Next(cfg, retries, w, a), key)|
            <= |TriesLeft(retries, w, key)| + (if a.QueueStep? && IsGrant(cfg, w.q, a.e, key) then retries + 1 else 0)
  {
    NextKeepsRange(cfg, retries, w, a);
    if a.Again? {
      TryUsesOne(cfg, retries, w, a, key);
    } else {
      TriesAfterStep(cfg, retries, w, a.e, key);
      var left, left' := TriesLeft(retries, w, key), TriesLeft(retries, Next(cfg, retries, w, a), key);
      hide TriesLeft, CallsInRange, Next, IsGrant;
      if IsGrant(cfg, w.q, a.e, key) {
        TriesOfOne(a.e.id, retries);
        hide AllTries;
        SubsetCount(left', left + AllTries({a.e.id}, retries));
      } else {
        SubsetCount(left', left);
      }
    }
  }

  /** The calls that so many slots may make. */
  function Allowance(slots: nat, retries: nat): nat {
    slots * (retries + 1)
  }

  /** The further tries of so many slots. */
  function FurtherTries(slots: nat, retries: nat): nat {
    slots * retries
  }

  /** So many slots, spaced by the interval, fit into T seconds. */
  predicate FitInto(slots: nat, interval: real, T: real) {
    slots >= 1 ==> (slots - 1) as real * interval <= T
  }

  lemma AllowanceGrows(slots: nat, retries: nat)
    ensures Allowance(slots + 1, retries) == Allowance(slots, retries) + retries + 1
  {
  }

  /** The slots of a key that a run of calls is given. */
  ghost function Slots(cfg: Config, retries: nat, w: World, actions: seq<Action>, key: string): nat
    requires IsCallRun(cfg, retries, w, actions)
    decreases |actions|
  {
    if actions == [] then 0
    else
      (if actions[0].QueueStep? && IsGrant(cfg, w.q, actions[0].e, key) then 1 else 0) +
      Slots(cfg, retries, Next(cfg, retries, w, actions[0]), actions[1..], key)
  }

  /** They are the grants of the run of the queue behind it. */
  lemma {:induction false} SlotsAreGrants(cfg: Config, retries: nat, w: World, clock: real, actions: seq<Action>,
                                          key: string)
    requires IsCallRun(cfg, retries, w, actions) && clock <= w.clock
    ensures IsRun(cfg, w.q, clock, QueueEvents(actions))
    ensures Slots(cfg, retries, w, actions, key) == |GrantTimes(cfg, w.q, clock, QueueEvents(actions), key)|
    decreases |actions|
  {
    CallRunIsRun(cfg, retries, w, clock, actions);
    if actions != [] {
      var a, rest := actions[0], actions[1..];
      var clock' := if a.QueueStep? then ClockAfter(clock, a.e) else clock;
      SlotsAreGrants(cfg, retries, Next(cfg, retries, w, a), clock', rest, key);
      hide Enabled, Step, IsGrant;
      if a.QueueStep? {
        assert QueueEvents(actions)[0] == a.e && QueueEvents(actions)[1..] == QueueEvents(rest);
      } else {
        assert QueueEvents(actions) == QueueEvents(rest);
      }
    }
  }

  lemma {:induction false} CallsCounted(cfg: Config, retries: nat, w: World, actions: seq<Action>, key: string)
    requires CallsInRange(retries, w) && IsCallRun(cfg, retries, w, actions)
    ensures |CallTimes(cfg, retries, w, actions, key)|
            <= |TriesLeft(retries, w, key)| + Allowance(Slots(cfg, retries, w, actions, key), retries)
    decreases |actions|
  {
    if actions != [] {
      var a, rest := actions[0], actions[1..];
      var w' := Next(cfg, retries, w, a);
      StepUsesTries(cfg, retries, w, a, key);
      CallsCounted(cfg, retries, w', rest, key);
      AllowanceGrows(Slots(cfg, retries, w', rest, key), retries);
      hide Possible, IsGrant, TriesLeft, CallsInRange, CallOf, Next, Allowance;
    }
  }

  /**
   How many HTTP calls a window can hold.  After any history, take any actions that span T seconds:
   with n slots among them, the calls for a key number at most (retries + 1) * n, and retries more
   for each slot that was already active; and (n - 1) * min_interval <= T.
   */
  lemma WindowCallBound(cfg: Config, retries: nat, history: seq<Action>, actions: seq<Action>, key: string, T: real)
    requires IsCallRun(cfg, retries, START, history)
    requires var w := WorldAfter(cfg, retries, START, history);
             IsCallRun(cfg, retries, w, actions) && WorldAfter(cfg, retries, w, actions).clock <= w.clock + T
    ensures var w := WorldAfter(cfg, retries, START, history);
            && IsRun(cfg, w.q, w.clock, QueueEvents(actions))
            && var n := |GrantTimes(cfg, w.q, w.clock, QueueEvents(actions), key)|;
               && |CallTimes(cfg, retries, w, actions, key)|
                  <= Allowance(n, retries) + FurtherTries(cfg(key).maxConcurrent, retries)
               && FitInto(n, cfg(key).minInterval, T)
  {
    assert CallsInRange(retries, START);
    hide IsCallRun, WorldAfter, CallTimes, Slots, IsRun, GrantTimes, QueueEvents, TriesLeft, CallsInRange,
         Allowance, FurtherTries, FitInto;
    var w := WorldAfter(cfg, retries, START, history);
    RunKeepsRange(cfg, retries, START, history);
    CallsCounted(cfg, retries, w, actions, key);
    ActiveTries(cfg, retries, history, key);
    CallRunIsRun(cfg, retries, w, w.clock, actions);
    SlotsAreGrants(cfg, retries, w, w.clock, actions, key);
    SlotsInTime(cfg, w.q, w.clock, QueueEvents(actions), key, T);
  }

  lemma SlotsInTime(cfg: Config, q: Queue, clock: real, events: seq<Event>, key: string, T: real)
    requires IsRun(cfg, q, clock, events) && ClockAtEnd(clock, events) <= clock + T
    ensures FitInto(|GrantTimes(cfg, q, clock, events, key)|, cfg(key).minInterval, T)
  {
    hide IsRun, GrantTimes, ClockAtEnd;
    var n := |GrantTimes(cfg, q, clock, events, key)|;
    GrantsInTime(cfg, q, clock, events, key);
    if n >= 1 {
      var g := GrantTimes(cfg, q, clock, events, key);
      assert forall i | 0 <= i < n :: g[i] in g;
      GrantRateBound(cfg, q, clock, events, key, 0, n, clock, T);
    }
  }

  /** The tries left to the active slots are at most retries each, and there are at most so many slots. */
  lemma ActiveTries(cfg: Config, retries: nat, history: seq<Action>, key: string)
    requires IsCallRun(cfg, retries, START, history) && CallsInRange(retries, WorldAfter(cfg, retries, START, history))
    ensures |TriesLeft(retries, WorldAfter(cfg, retries, START, history), key)|
            <= FurtherTries(cfg(key).maxConcurrent, retries)
  {
    hide IsCallRun, WorldAfter, IsRun, After, QueueEvents;
    var w := WorldAfter(cfg, retries, START, history);
    CallRunIsRun(cfg, retries, START, 0.0, history);
    QueueAccounting(cfg, 0.0, QueueEvents(history), key);
    var ids := ActiveIds(w.q, key);
    TriesCounted(ids, retries);
    assert TriesLeft(retries, w, key) <= AllTries(ids, retries);
    SubsetCount(TriesLeft(retries, w, key), AllTries(ids, retries));
    MoreTimes(|ids|, cfg(key).maxConcurrent, retries);
  }

  lemma {:induction false} GrantsInTime(cfg: Config, q: Queue, clock: real, events: seq<Event>, key: string)
    requires IsRun(cfg, q, clock, events)
    ensures clock <= ClockAtEnd(clock, events)
    ensures forall t | t in GrantTimes(cfg, q, clock, events, key) :: clock <= t <= ClockAtEnd(clock, events)
    decreases |events|
  {
    hide Enabled, Step, IsGrant;
    if events != [] {
      GrantsInTime(cfg, Step(cfg, q, events[0]), ClockAfter(clock, events[0]), events[1..], key);
      assert IsGrant(cfg, q, events[0], key) ==> events[0].PollEv? by {
        GrantPolls(cfg, q, events[0], key);
      }
    }
  }

  lemma GrantPolls(cfg: Config, q: Queue, e: Event, key: string)
    requires Enabled(q, e)
    ensures IsGrant(cfg, q, e, key) ==> e.PollEv?
  {
  }

  // ---------------------------------------------------------------- how far apart the calls are

  ghost predicate Spaced(times: seq<real>, interval: real) {
    forall i | 0 <= i < |times| - 1 :: times[i + 1] >= times[i] + interval
  }

  /** In every run from the start, the HTTP calls for the key are at least min_interval apart. */
  ghost predicate CallsAreSpaced(cfg: Config, retries: nat, key: string) {
    forall actions | IsCallRun(cfg, retries, START, actions) ::
      Spaced(CallTimes(cfg, retries, START, actions, key), cfg(key).minInterval)
  }

  /** Without retries every call is the first one of its slot. */
  lemma {:induction false} CallsAreSlots(cfg: Config, w: World, clock: real, actions: seq<Action>, key: string)
    requires CallsInRange(0, w) && IsCallRun(cfg, 0, w, actions) && clock <= w.clock
    ensures IsRun(cfg, w.q, clock, QueueEvents(actions))
    ensures CallTimes(cfg, 0, w, actions, key) == GrantTimes(cfg, w.q, clock, QueueEvents(actions), key)
    decreases |actions|
  {
    CallRunIsRun(cfg, 0, w, clock, actions);
    if actions != [] {
      var a, rest := actions[0], actions[1..];
      NextKeepsRange(cfg, 0, w, a);
      assert a.QueueStep?;
      CallsAreSlots(cfg, Next(cfg, 0, w, a), ClockAfter(clock, a.e), rest, key);
      hide Enabled, Step, IsGrant, CallsInRange;
      assert QueueEvents(actions)[0] == a.e && QueueEvents(actions)[1..] == QueueEvents(rest);
      var later := CallTimes(cfg, 0, Next(cfg, 0, w, a), rest, key);
      assert [] + later == later;
    }
  }

  lemma {:induction false} CallsInOrder(cfg: Config, retries: nat, w: World, actions: seq<Action>, key: string)
    requires CallsInRange(retries, w) && IsCallRun(cfg, retries, w, actions)
    ensures var times := CallTimes(cfg, retries, w, actions, key);
            Spaced(times, 0.0) && (times != [] ==> w.clock <= times[0])
    decreases |actions|
  {
    if actions != [] {
      var a, w' := actions[0], Next(cfg, retries, w, actions[0]);
      NextKeepsRange(cfg, retries, w, a);
      CallsInOrder(cfg, retries, w', actions[1..], key);
      CallInTime(cfg, retries, w, a, key);
      hide CallOf, Next, CallsInRange, Possible, Spaced;
      InOrder(CallOf(cfg, retries, w, a, key), CallTimes(cfg, retries, w', actions[1..], key), w.clock, w'.clock);
    } else {
      assert Spaced([], 0.0);
    }
  }

  lemma InOrder(first: seq<real>, later: seq<real>, from: real, to: real)
    requires |first| <= 1 && from <= to && forall t | t in first :: from <= t <= to
    requires Spaced(later, 0.0) && (later != [] ==> to <= later[0])
    ensures Spaced(first + later, 0.0) && (first + later != [] ==> from <= (first + later)[0])
  {
    if first == [] {
      assert first + later == later;
    } else {
      assert first[0] in first;
    }
  }

  lemma CallInTime(cfg: Config, retries: nat, w: World, a: Action, key: string)
    requires Possible(cfg, retries, w, a)
    ensures |CallOf(cfg, retries, w, a, key)| <= 1
    ensures forall t | t in CallOf(cfg, retries, w, a, key) :: w.clock <= t <= Next(cfg, retries, w, a).clock
  {
  }

  /** One slot and a retry after less than the interval. */
  lemma EarlyRetry(cfg: Config, retries: nat, key: string) returns (actions: seq<Action>)
    requires retries >= 1 && cfg(key).maxConcurrent >= 1 && cfg(key).minInterval > 0.0
    ensures IsCallRun(cfg, retries, START, actions)
    ensures !Spaced(CallTimes(cfg, retries, START, actions, key), cfg(key).minInterval)
  {
    var t, delay := cfg(key).minInterval, Min(cfg(key).minInterval / 2.0, 1.0);
    var enter, poll := QueueStep(EnterEv("a", key, t)), QueueStep(PollEv("a", t, t));
    var again := Again("a", delay, t + delay);
    var w1, w2, w3 := EarlySteps(cfg, retries, key, t, delay);
    assert CallTimes(cfg, retries, w3, [], key) == [] && IsCallRun(cfg, retries, w3, []);
    hide Possible, Next, CallOf, IsCallRun, CallTimes;
    actions := CallBefore(cfg, retries, w2, again, [], key);
    actions := CallBefore(cfg, retries, w1, poll, actions, key);
    actions := CallBefore(cfg, retries, START, enter, actions, key);
    var times := CallTimes(cfg, retries, START, actions, key);
    assert times == [] + ([t] + ([t + delay] + []));
    assert times[0] == t && times[1] == t + delay;
  }

  lemma EarlySteps(cfg: Config, retries: nat, key: string, t: real, delay: real)
    returns (w1: World, w2: World, w3: World)
    requires retries >= 1 && cfg(key).maxConcurrent >= 1 && t == cfg(key).minInterval > 0.0
    requires 0.0 < delay <= 1.0
    ensures var enter, poll := QueueStep(EnterEv("a", key, t)), QueueStep(PollEv("a", t, t));
            var again := Again("a", delay, t + delay);
            && Possible(cfg, retries, START, enter) && Next(cfg, retries, START, enter) == w1
            && Possible(cfg, retries, w1, poll) && Next(cfg, retries, w1, poll) == w2
            && Possible(cfg, retries, w2, again) && Next(cfg, retries, w2, again) == w3
            && CallOf(cfg, retries, START, enter, key) == [] && CallOf(cfg, retries, w1, poll, key) == [t]
            && CallOf(cfg, retries, w2, again, key) == [t + delay]
  {
    var enter, poll := EnterEv("a", key, t), PollEv("a", t, t);
    w1 := Next(cfg, retries, START, QueueStep(enter));
    assert Grants(w1.q, cfg(key), key, t);
    w2 := Next(cfg, retries, w1, QueueStep(poll));
    assert Client.RetryDelay(delay, 0) == delay;
    w3 := Next(cfg, retries, w2, Again("a", delay, t + delay));
  }

  /** A run of calls with one more action before it. */
  lemma CallBefore(cfg: Config, retries: nat, w: World, a: Action, rest: seq<Action>, key: string)
    returns (actions: seq<Action>)
    requires Possible(cfg, retries, w, a) && IsCallRun(cfg, retries, Next(cfg, retries, w, a), rest)
    ensures IsCallRun(cfg, retries, w, actions)
    ensures CallTimes(cfg, retries, w, actions, key) ==
            CallOf(cfg, retries, w, a, key) + CallTimes(cfg, retries, Next(cfg, retries, w, a), rest, key)
  {
    hide Possible, Next, CallOf;
    actions := [a] + rest;
    assert actions[1..] == rest && actions[0] == a;
  }

  /**
   The pacing promises a minimum spacing between requests.  It keeps it for HTTP calls, in every run,
   if and only if there are no retries (or nothing to keep): a retry waits for its own backoff only.
   */
  lemma CallsSpacedIff(cfg: Config, retries: nat, key: string)
    requires cfg(key).maxConcurrent >= 1 && cfg(key).minInterval >= 0.0
    ensures CallsAreSpaced(cfg, retries, key) <==> retries == 0 || cfg(key).minInterval == 0.0
  {
    if retries == 0 || cfg(key).minInterval == 0.0 {
      forall actions | IsCallRun(cfg, retries, START, actions)
        ensures Spaced(CallTimes(cfg, retries, START, actions, key), cfg(key).minInterval)
      {
        if retries == 0 {
          CallsAreSlots(cfg, START, 0.0, actions, key);
          GrantsAreSpaced(cfg, EMPTY_QUEUE, 0.0, QueueEvents(actions), key);
        } else {
          CallsInOrder(cfg, retries, START, actions, key);
        }
      }
    } else {
      var actions := EarlyRetry(cfg, retries, key);
    }
  }
}
