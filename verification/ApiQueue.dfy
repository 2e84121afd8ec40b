/**
 The outbound API queue (backend/api_queue.py) as a value and the atomic steps that change it.

 The queue is three dictionaries: the counters of each pacing key, the table of requests, and
 the stack of active request ids of each pacing key.  No step awaits while it changes them, so
 a run of the program is a sequence of the steps below, in any interleaving.
 */
module ApiQueue {
  import opened Options

  const MAX_SOURCE_PAUSE_SECONDS: real := 3600.0

  const RATE_LIMIT_REASONS: set<string> :=
    {"retry-after", "token_quota", "request_quota", "github_quota", "rate_limit"}

  datatype RequestState = Queued | Waiting | RateLimited | Active

  datatype ApiRequest = ApiRequest(
    pacingKey: string,
    state: RequestState,
    queuedAt: real,
    startedAt: Option<real>,
    waitReason: string)

  datatype SourceState = SourceState(
    queued: nat,
    active: nat,
    pauseUntil: real,
    lastRequestAt: real,
    waitReason: string)

  const FRESH_SOURCE := SourceState(0, 0, 0.0, 0.0, "")

  datatype Pacing = Pacing(minInterval: real, maxConcurrent: nat)

  /** Pacing per pacing key.  A run has one configuration. */
  type Config = string -> Pacing

  datatype Queue = Queue(
    sources: map<string, SourceState>,
    requests: map<string, ApiRequest>,
    stacks: map<string, seq<string>>)

  const EMPTY_QUEUE := Queue(map[], map[], map[])

  function SourceOf(q: Queue, key: string): SourceState {
    if key in q.sources then q.sources[key] else FRESH_SOURCE
  }

  function StackOf(q: Queue, key: string): seq<string> {
    if key in q.stacks then q.stacks[key] else []
  }

  /** The earliest time at which the pacing of a key lets another request start. */
  function Earliest(q: Queue, pacing: Pacing, key: string): real {
    var s := SourceOf(q, key);
    Max(s.pauseUntil, s.lastRequestAt + pacing.minInterval)
  }

  predicate Waits(q: Queue, id: string) {
    id in q.requests && !q.requests[id].state.Active?
  }

  predicate IsActive(q: Queue, id: string) {
    id in q.requests && q.requests[id].state.Active?
  }

  // ---------------------------------------------------------------- the steps

  /** A caller enters the queue: its request is registered and counted. */
  function Enter(q: Queue, id: string, key: string, now: real): Queue {
    var s := SourceOf(q, key);
    q.(sources := q.sources[key := s.(queued := s.queued + 1)],
       requests := q.requests[id := ApiRequest(key, Queued, now, None, "")])
  }

  /** The counter update every caller makes when it leaves the wait loop. */
  function LeaveQueued(queued: nat): nat {
    if queued == 0 then 0 else queued - 1
  }

  /** Whether a pass of the wait loop at time now hands out a slot. */
  predicate Grants(q: Queue, pacing: Pacing, key: string, now: real) {
    SourceOf(q, key).active < pacing.maxConcurrent && Earliest(q, pacing, key) <= now
  }

  function WaitReasonAt(s: SourceState): string {
    if s.waitReason != "" then s.waitReason else "pacing"
  }

  /**
   One pass of the wait loop of the request id.  The clock is read twice: now decides, and at is
   what is recorded as the start.  A pass that grants also runs the caller's exit code.
   */
  function Poll(q: Queue, pacing: Pacing, id: string, now: real, at: real): Queue
    requires id in q.requests
  {
    var req := q.requests[id];
    var key := req.pacingKey;
    var s := SourceOf(q, key);
    if s.active >= pacing.maxConcurrent then
      q.(sources := q.sources[key := s.(waitReason := "concurrency")],
         requests := q.requests[id := req.(state := Waiting, waitReason := "concurrency")])
    else if Earliest(q, pacing, key) > now then
      var reason := WaitReasonAt(s);
      var state := if s.pauseUntil > now && reason in RATE_LIMIT_REASONS then RateLimited else Waiting;
      q.(sources := q.sources[key := s.(waitReason := reason)],
         requests := q.requests[id := req.(state := state, waitReason := reason)])
    else
      Queue(
        q.sources[key := s.(active := s.active + 1, lastRequestAt := at, waitReason := "",
                            queued := LeaveQueued(s.queued))],
        q.requests[id := req.(state := Active, waitReason := "", startedAt := Some(at))],
        q.stacks[key := StackOf(q, key) + [id]])
  }

  /** How long a pass that does not grant sleeps before the next one. */
  function SleepAfter(q: Queue, pacing: Pacing, key: string, now: real): real {
    if SourceOf(q, key).active >= pacing.maxConcurrent then 0.25
    else Min(Earliest(q, pacing, key) - now, 1.0)
  }

  /** A waiting caller is cancelled: only its exit code runs. */
  function Cancel(q: Queue, id: string): Queue
    requires id in q.requests
  {
    var key := q.requests[id].pacingKey;
    var s := SourceOf(q, key);
    q.(sources := q.sources[key := s.(queued := LeaveQueued(s.queued))],
       requests := q.requests - {id})
  }

  /** list.remove: the first occurrence goes, the rest keeps its order. */
  function RemoveFirst(stack: seq<string>, id: string): seq<string> {
    if stack == [] then []
    else if stack[0] == id then stack[1..]
    else [stack[0]] + RemoveFirst(stack[1..], id)
  }

  function Decrement(active: nat): nat {
    if active == 0 then 0 else active - 1
  }

  /** Release of a slot by the id the caller was handed. */
  function Release(q: Queue, key: string, id: string): Queue {
    var s := SourceOf(q, key);
    var stack := StackOf(q, key);
    if id in q.requests then
      Queue(q.sources[key := s.(active := Decrement(s.active))],
            q.requests - {id},
            q.stacks[key := RemoveFirst(stack, id)])
    else
      q.(sources := q.sources[key := s], stacks := q.stacks[key := stack])
  }

  /** Release without an id: the most recently granted slot of the key. */
  function ReleaseLast(q: Queue, key: string): Queue {
    var s := SourceOf(q, key);
    var stack := StackOf(q, key);
    var s' := s.(active := Decrement(s.active));
    if stack == [] then
      q.(sources := q.sources[key := s'], stacks := q.stacks[key := stack])
    else
      Queue(q.sources[key := s'],
            q.requests - {stack[|stack| - 1]},
            q.stacks[key := stack[..|stack| - 1]])
  }

  /** What a pause does to one request of the table. */
  function SyncRequest(req: ApiRequest, key: string, s: SourceState, now: real): ApiRequest {
    if req.pacingKey != key || req.state.Active? then req
    else if s.pauseUntil > now || s.waitReason in RATE_LIMIT_REASONS then
      req.(state := RateLimited, waitReason := s.waitReason)
    else
      req.(state := if s.waitReason != "" then Waiting else Queued, waitReason := s.waitReason)
  }

  function SyncRequests(requests: map<string, ApiRequest>, key: string, s: SourceState, now: real)
    : map<string, ApiRequest>
  {
    map id | id in requests :: SyncRequest(requests[id], key, s, now)
  }

  /** A pause of the given length, clamped to one hour; now and later are its two clock readings. */
  function Pause(q: Queue, key: string, seconds: real, reason: string, now: real, later: real): Queue {
    if seconds <= 0.0 then q
    else
      var s := SourceOf(q, key);
      var s' := s.(pauseUntil := Max(s.pauseUntil, now + Min(seconds, MAX_SOURCE_PAUSE_SECONDS)),
                   waitReason := reason);
      q.(sources := q.sources[key := s'], requests := SyncRequests(q.requests, key, s', later))
  }

  // ---------------------------------------------------------------- runs

  datatype Event =
    | EnterEv(id: string, key: string, now: real)
    | PollEv(id: string, now: real, at: real)
    | CancelEv(id: string)
    | ReleaseEv(key: string, id: string)
    | ReleaseLastEv(key: string)
    | PauseEv(key: string, seconds: real, reason: string, now: real, later: real)

  /**
   Which steps can be taken.  Ids are drawn at random and do not repeat; only a caller inside the
   wait loop polls or is cancelled; and a caller releases an id that it was handed for that key,
   once or more often.
   */
  predicate Enabled(q: Queue, e: Event) {
    match e
    case EnterEv(id, _, _) => id !in q.requests
    case PollEv(id, _, _) => Waits(q, id)
    case CancelEv(id) => Waits(q, id)
    case ReleaseEv(key, id) => id in q.requests ==> IsActive(q, id) && q.requests[id].pacingKey == key
    case ReleaseLastEv(_) => true
    case PauseEv(_, _, _, _, _) => true
  }

  /** The pacing key an event is about. */
  function KeyOf(q: Queue, e: Event): string
    requires Enabled(q, e)
  {
    match e
    case EnterEv(_, key, _) => key
    case PollEv(id, _, _) => q.requests[id].pacingKey
    case CancelEv(id) => q.requests[id].pacingKey
    case ReleaseEv(key, _) => key
    case ReleaseLastEv(key) => key
    case PauseEv(key, _, _, _, _) => key
  }

  function Step(cfg: Config, q: Queue, e: Event): Queue
    requires Enabled(q, e)
  {
    match e
    case EnterEv(id, key, now) => Enter(q, id, key, now)
    case PollEv(id, now, at) => Poll(q, cfg(q.requests[id].pacingKey), id, now, at)
    case CancelEv(id) => Cancel(q, id)
    case ReleaseEv(key, id) => Release(q, key, id)
    case ReleaseLastEv(key) => ReleaseLast(q, key)
    case PauseEv(key, seconds, reason, now, later) => Pause(q, key, seconds, reason, now, later)
  }

  /** The clock readings of an event come after the clock, in order. */
  predicate Timely(clock: real, e: Event) {
    match e
    case EnterEv(_, _, now) => clock <= now
    case PollEv(_, now, at) => clock <= now <= at
    case PauseEv(_, _, _, now, later) => clock <= now <= later
    case _ => true
  }

  function ClockAfter(clock: real, e: Event): real {
    match e
    case EnterEv(_, _, now) => now
    case PollEv(_, _, at) => at
    case PauseEv(_, _, _, _, later) => later
    case _ => clock
  }

  /** A run: every event can happen where it happens, and the clock never goes back. */
  ghost predicate IsRun(cfg: Config, q: Queue, clock: real, events: seq<Event>)
    decreases |events|
  {
    events == [] ||
    (Enabled(q, events[0]) && Timely(clock, events[0]) &&
     IsRun(cfg, Step(cfg, q, events[0]), ClockAfter(clock, events[0]), events[1..]))
  }

  ghost function After(cfg: Config, q: Queue, clock: real, events: seq<Event>): Queue
    requires IsRun(cfg, q, clock, events)
    decreases |events|
  {
    if events == [] then q
    else After(cfg, Step(cfg, q, events[0]), ClockAfter(clock, events[0]), events[1..])
  }

  ghost function ClockAtEnd(clock: real, events: seq<Event>): real
    decreases |events|
  {
    if events == [] then clock else ClockAtEnd(ClockAfter(clock, events[0]), events[1..])
  }

  /** Whether the event hands out a slot of the key. */
  predicate IsGrant(cfg: Config, q: Queue, e: Event, key: string)
    requires Enabled(q, e)
  {
    e.PollEv? && q.requests[e.id].pacingKey == key && Grants(q, cfg(key), key, e.now)
  }

  /** The start times of the slots of a key that a run hands out, in order. */
  ghost function GrantTimes(cfg: Config, q: Queue, clock: real, events: seq<Event>, key: string): seq<real>
    requires IsRun(cfg, q, clock, events)
    decreases |events|
  {
    if events == [] then []
    else
      var rest := GrantTimes(cfg, Step(cfg, q, events[0]), ClockAfter(clock, events[0]), events[1..], key);
      if IsGrant(cfg, q, events[0], key) then [events[0].at] + rest else rest
  }
}
