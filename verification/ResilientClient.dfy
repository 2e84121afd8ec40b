/**
 A logical request of backend/resilient_client.py: bounded retries inside a queue slot, and the
 loop around it that waits for circuits and rate limits.

 What the network, the clock and cancellation do is a script.  What the request does that others
 can see is a trace.
 */
module ResilientClient {
  import opened Options
  import Durations

  const RETRYABLE_STATUS: set<nat> := {500, 502, 503, 504}
  const RETRY_BACKOFF_SECONDS := 1.5
  const MAX_RETRY_AFTER_SECONDS := 120.0

  /** The x-ratelimit-remaining header. */
  datatype Remaining = NoHeader | Header(text: string)

  /** Digits, with single underscores between them. */
  predicate DigitGroups(s: string) {
    && s != "" && Durations.IsDigit(s[0]) && Durations.IsDigit(s[|s| - 1])
    && forall i | 0 <= i < |s| :: Durations.IsDigit(s[i]) || (s[i] == '_' && i > 0 && s[i - 1] != '_')
  }

  function WithoutUnderscores(s: string): (digits: string)
    ensures (forall i | 0 <= i < |s| :: Durations.IsDigit(s[i]) || s[i] == '_') ==>
              forall i | 0 <= i < |digits| :: Durations.IsDigit(digits[i])
  {
    if s == "" then "" else (if s[0] == '_' then "" else [s[0]]) + WithoutUnderscores(s[1..])
  }

  function GroupsValue(s: string): Option<int> {
    if DigitGroups(s) then Some(Durations.DigitsValue(WithoutUnderscores(s))) else None
  }

  /** Python's int(): space around it, a sign, and digits with single underscores between them. */
  function ParseInt(text: string): Option<int> {
    var s := Durations.Strip(text);
    if s != "" && s[0] == '-' then
      match GroupsValue(s[1..])
      case Some(n) => Some(-n)
      case None => None
    else GroupsValue(if s != "" && s[0] == '+' then s[1..] else s)
  }

  /** What one HTTP call does; retryAfter is the parsed Retry-After header, 0 without one. */
  datatype Outcome =
    | TransportError
    | Response(status: nat, remaining: Remaining, retryAfter: real)
    | OtherError

  /** One try: the call, and whether the sleep before the next try is cancelled. */
  datatype Try = Try(outcome: Outcome, interrupted: bool)

  type Script = nat -> Try

  datatype Ending =
    | Returned(status: nat)
    | RaisedTransport
    | RaisedStatus(status: nat, remaining: Remaining)
    | RaisedCircuitOpen
    | RaisedOther
    | FellThrough

  datatype Event =
    | Acquired(id: string)
    | HttpCall
    | CircuitSuccess
    | CircuitFailure(cooldown: Option<real>)
    | ErrorNoted(status: nat)
    | Released(id: string)

  datatype Flags = Flags(
    retries: int,
    waitOnRateLimit: bool,
    waitOnCircuit: bool,
    recordClientError: bool,
    recordCircuit: bool,
    circuitCooldown: real)

  /** A number that is not positive, however it is spelt. */
  predicate NothingRemains(remaining: Remaining) {
    remaining.Header? && ParseInt(remaining.text).Some? && ParseInt(remaining.text).value <= 0
  }

  predicate QuotaExhausted(o: Outcome) {
    o.Response? && o.status == 403 && NothingRemains(o.remaining)
  }

  /** The outcomes after which the same slot tries again. */
  predicate Retryable(o: Outcome) {
    o.TransportError? ||
    (o.Response? && (o.status in RETRYABLE_STATUS || o.status == 429)) ||
    QuotaExhausted(o)
  }

  predicate ServerError(status: nat) {
    500 <= status < 600
  }

  predicate ClientError(status: nat) {
    400 <= status < 500
  }

  function RetryDelay(retryAfter: real, attempt: nat): real {
    if retryAfter > 0.0 then Min(retryAfter, MAX_RETRY_AFTER_SECONDS)
    else RETRY_BACKOFF_SECONDS * Pow2(attempt) as real
  }

  /** How the request ends with the outcome of its last try. */
  function EndingOf(o: Outcome): Ending {
    match o
    case TransportError => RaisedTransport
    case OtherError => RaisedOther
    case Response(status, remaining, _) =>
      if ServerError(status) || ClientError(status) then RaisedStatus(status, remaining) else Returned(status)
  }

  /** The one thing the breaker hears of a slot, if anything. */
  function Verdict(flags: Flags, o: Outcome, attempt: nat): seq<Event> {
    if !flags.recordCircuit then []
    else match o
      case TransportError => [CircuitFailure(None)]
      case OtherError => []
      case Response(status, _, retryAfter) =>
        if status in RETRYABLE_STATUS then
          [CircuitFailure(Some(Max(RetryDelay(retryAfter, attempt), flags.circuitCooldown)))]
        else if ServerError(status) then [CircuitFailure(None)]
        else if ClientError(status) then []
        else [CircuitSuccess]
  }

  /** The note that a client error leaves in the health registry. */
  function Note(flags: Flags, o: Outcome): seq<Event> {
    if flags.recordClientError && o.Response? && ClientError(o.status) && !Retryable(o)
    then [ErrorNoted(o.status)] else []
  }

  function Calls(n: nat): seq<Event> {
    seq(n, i => HttpCall)
  }

  /** The number of tries that a slot makes, counted from the try with index i on. */
  function TriesFrom(flags: Flags, script: Script, i: nat): nat
    requires i <= flags.retries
    decreases flags.retries - i
  {
    if i == flags.retries || !Retryable(script(i).outcome) || script(i).interrupted then i + 1
    else TriesFrom(flags, script, i + 1)
  }

  function Tries(flags: Flags, script: Script): nat {
    if flags.retries < 0 then 0 else TriesFrom(flags, script, 0)
  }

  /** The last try was cut short while it slept before another one. */
  predicate CutShort(flags: Flags, script: Script, n: nat) {
    1 <= n <= flags.retries && Retryable(script(n - 1).outcome)
  }

  function SlotEnding(flags: Flags, script: Script): Ending {
    var n := Tries(flags, script);
    if n == 0 then FellThrough
    else if CutShort(flags, script, n) then RaisedOther
    else EndingOf(script(n - 1).outcome)
  }

  /** What a slot's tries leave in the trace: the calls, then the verdict or the note. */
  function SlotTrace(flags: Flags, script: Script): seq<Event> {
    var n := Tries(flags, script);
    Calls(n) +
    if n == 0 || CutShort(flags, script, n) then []
    else Verdict(flags, script(n - 1).outcome, n - 1) + Note(flags, script(n - 1).outcome)
  }

  /** _execute_request_attempt: one slot's tries. */
  method ExecuteRequestAttempt(flags: Flags, script: Script) returns (ending: Ending, trace: seq<Event>)
    ensures ending == SlotEnding(flags, script)
    ensures trace == SlotTrace(flags, script)
  {
    hide NothingRemains, RetryDelay;
    var calls := 0;
    trace := [];
    while calls < flags.retries + 1
      invariant flags.retries < 0 ==> calls == 0
      invariant flags.retries >= 0 ==>
        calls <= flags.retries && Tries(flags, script) == TriesFrom(flags, script, calls)
      invariant trace == Calls(calls)
    {
      var attempt := calls;
      var t := script(attempt);
      calls := calls + 1;
      trace := trace + [HttpCall];
      assert trace == Calls(calls);
      match t.outcome
      case OtherError =>
        return RaisedOther, trace;
      case TransportError =>
        if attempt < flags.retries {
          if t.interrupted {
            return RaisedOther, trace;
          }
          continue;
        }
        if flags.recordCircuit {
          trace := trace + [CircuitFailure(None)];
        }
        return RaisedTransport, trace;
      case Response(status, remaining, retryAfter) =>
        if status in RETRYABLE_STATUS {
          if attempt < flags.retries {
            if t.interrupted {
              return RaisedOther, trace;
            }
            continue;
          }
          var cooldown := Max(RetryDelay(retryAfter, attempt), flags.circuitCooldown);
          if flags.recordCircuit {
            trace := trace + [CircuitFailure(Some(cooldown))];
          }
          return RaisedStatus(status, remaining), trace;
        }
        if status == 429 {
          if attempt < flags.retries {
            if t.interrupted {
              return RaisedOther, trace;
            }
            continue;
          }
          return RaisedStatus(status, remaining), trace;
        }
        if status == 403 {
          if NothingRemains(remaining) {
            if attempt < flags.retries {
              if t.interrupted {
                return RaisedOther, trace;
              }
              continue;
            }
            return RaisedStatus(status, remaining), trace;
          }
        }
        if ServerError(status) {
          if flags.recordCircuit {
            trace := trace + [CircuitFailure(None)];
          }
          return RaisedStatus(status, remaining), trace;
        }
        if ClientError(status) {
          if flags.recordClientError {
            trace := trace + [ErrorNoted(status)];
          }
          return RaisedStatus(status, remaining), trace;
        }
        if flags.recordCircuit {
          trace := trace + [CircuitSuccess];
        }
        return Returned(status), trace;
    }
    return FellThrough, [];
  }

  // ---------------------------------------------------------------- the loop around it

  /** What a pass of the outer loop meets: an open circuit, cancellation in the queue, or a slot. */
  datatype Round =
    | OpenCircuit(interrupted: bool)
    | CancelledInQueue
    | Slot(id: string, script: Script)

  /** What the trace says about the slot that is held. */
  datatype Holding = Free | Held(id: string, calls: nat, judged: bool) | Broken

  function Advance(retries: int, h: Holding, e: Event): Holding {
    match (h, e)
    case (Free, Acquired(id)) => Held(id, 0, false)
    case (Held(id, calls, judged), HttpCall) =>
      if calls <= retries && !judged then Held(id, calls + 1, judged) else Broken
    case (Held(id, calls, judged), CircuitSuccess) => if calls >= 1 && !judged then Held(id, calls, true) else Broken
    case (Held(id, calls, judged), CircuitFailure(_)) => if calls >= 1 && !judged then Held(id, calls, true) else Broken
    case (Held(id, calls, judged), ErrorNoted(_)) => if calls >= 1 && !judged then h else Broken
    case (Held(id, calls, judged), Released(other)) => if id == other then Free else Broken
    case _ => Broken
  }

  function AdvanceAll(retries: int, h: Holding, trace: seq<Event>): Holding
    decreases |trace|
  {
    if trace == [] then h
    else Advance(retries, AdvanceAll(retries, h, trace[..|trace| - 1]), trace[|trace| - 1])
  }

  /** The state of the slot after a trace. */
  function HeldAfter(retries: int, trace: seq<Event>): Holding {
    AdvanceAll(retries, Free, trace)
  }

  lemma {:induction false} AdvanceAppend(retries: int, h: Holding, a: seq<Event>, b: seq<Event>)
    ensures AdvanceAll(retries, h, a + b) == AdvanceAll(retries, AdvanceAll(retries, h, a), b)
    decreases |b|
  {
    if b == [] {
      assert a + b == a;
    } else {
      AdvanceAppend(retries, h, a, b[..|b| - 1]);
      assert (a + b)[..|a + b| - 1] == a + b[..|b| - 1];
    }
  }

  lemma AdvanceOne(retries: int, h: Holding, e: Event)
    ensures AdvanceAll(retries, h, [e]) == Advance(retries, h, e)
  {
    assert [e][..0] == [];
  }

  lemma {:induction false} CallsKeepSlot(retries: int, id: string, n: nat)
    requires n == 0 || n <= retries + 1
    ensures AdvanceAll(retries, Held(id, 0, false), Calls(n)) == Held(id, n, false)
  {
    if n > 0 {
      CallsKeepSlot(retries, id, n - 1);
      assert Calls(n)[..n - 1] == Calls(n - 1);
    }
  }

  /** After its calls a slot may have one verdict or one note. */
  predicate Conclusion(tail: seq<Event>, n: nat) {
    tail == [] ||
    (n >= 1 && |tail| == 1 && (tail[0].CircuitSuccess? || tail[0].CircuitFailure? || tail[0].ErrorNoted?))
  }

  /** A slot's events, from its acquisition to its release, keep the discipline. */
  lemma SlotKeepsDiscipline(retries: int, before: seq<Event>, id: string, n: nat, tail: seq<Event>)
    requires HeldAfter(retries, before) == Free && (n == 0 || n <= retries + 1) && Conclusion(tail, n)
    ensures HeldAfter(retries, before + ([Acquired(id)] + (Calls(n) + tail) + [Released(id)])) == Free
  {
    var inner := Calls(n) + tail;
    AdvanceAppend(retries, Free, before, [Acquired(id)] + inner + [Released(id)]);
    AdvanceAppend(retries, Free, [Acquired(id)] + inner, [Released(id)]);
    AdvanceAppend(retries, Free, [Acquired(id)], inner);
    AdvanceOne(retries, Free, Acquired(id));
    CallsKeepSlot(retries, id, n);
    AdvanceAppend(retries, Held(id, 0, false), Calls(n), tail);
    if tail != [] {
      assert tail == [tail[0]];
      AdvanceOne(retries, Held(id, n, false), tail[0]);
    }
    var held := AdvanceAll(retries, Held(id, n, false), tail);
    assert held.Held? && held.id == id;
    AdvanceOne(retries, held, Released(id));
  }

  /** What the outer loop takes for a rate limit: the text of the header, not its number. */
  predicate RateLimited(e: Ending) {
    e.RaisedStatus? && (e.status == 429 || (e.status == 403 && e.remaining == Header("0")))
  }

  /** The round ends without the request ending. */
  predicate GoesOn(flags: Flags, round: Round) {
    match round
    case OpenCircuit(interrupted) => flags.waitOnCircuit && !interrupted
    case CancelledInQueue => false
    case Slot(_, script) => flags.waitOnRateLimit && RateLimited(SlotEnding(flags, script))
  }

  function RoundEnding(flags: Flags, round: Round): Ending {
    match round
    case OpenCircuit(_) => if flags.waitOnCircuit then RaisedOther else RaisedCircuitOpen
    case CancelledInQueue => RaisedOther
    case Slot(_, script) => SlotEnding(flags, script)
  }

  /** The trace so far and what the round adds to it. */
  function AddRound(flags: Flags, trace: seq<Event>, round: Round): seq<Event> {
    match round
    case Slot(id, script) => trace + ([Acquired(id)] + SlotTrace(flags, script) + [Released(id)])
    case _ => trace
  }

  /** How the request ends, None while the given rounds leave it waiting, and its trace. */
  function RequestRun(flags: Flags, rounds: seq<Round>, trace: seq<Event>): (Option<Ending>, seq<Event>)
    decreases |rounds|
  {
    if rounds == [] then (None, trace)
    else if GoesOn(flags, rounds[0]) then RequestRun(flags, rounds[1..], AddRound(flags, trace, rounds[0]))
    else (Some(RoundEnding(flags, rounds[0])), AddRound(flags, trace, rounds[0]))
  }

  /** resilient_request. */
  method ResilientRequest(flags: Flags, rounds: seq<Round>) returns (ending: Option<Ending>, trace: seq<Event>)
    ensures (ending, trace) == RequestRun(flags, rounds, [])
  {
    hide SlotTrace, SlotEnding;
    trace := [];
    for i := 0 to |rounds|
      invariant RequestRun(flags, rounds, []) == RequestRun(flags, rounds[i..], trace)
    {
      assert rounds[i..][1..] == rounds[i + 1..];
      match rounds[i]
      case OpenCircuit(interrupted) =>
        if flags.waitOnCircuit {
          if interrupted {
            return Some(RaisedOther), trace;
          }
          continue;
        }
        return Some(RaisedCircuitOpen), trace;
      case CancelledInQueue =>
        return Some(RaisedOther), trace;
      case Slot(id, script) =>
        var result, inner := ExecuteRequestAttempt(flags, script);
        trace := trace + ([Acquired(id)] + inner + [Released(id)]);
        if flags.waitOnRateLimit && RateLimited(result) {
          continue;
        }
        return Some(result), trace;
    }
    return None, trace;
  }

  // ---------------------------------------------------------------- the discipline

  /**
   A slot makes between one and retries + 1 tries.  Every try but the last one asked for another,
   and the last one asked for none, was cut short, or was the last that is allowed.
   */
  lemma {:induction false} TriesBounded(flags: Flags, script: Script, i: nat)
    requires i <= flags.retries
    ensures var n := TriesFrom(flags, script, i);
            && i + 1 <= n <= flags.retries + 1
            && (forall j | i <= j < n - 1 :: Retryable(script(j).outcome) && !script(j).interrupted)
            && (n <= flags.retries ==> !Retryable(script(n - 1).outcome) || script(n - 1).interrupted)
    decreases flags.retries - i
  {
    if i < flags.retries && Retryable(script(i).outcome) && !script(i).interrupted {
      TriesBounded(flags, script, i + 1);
    }
  }

  /** The fall-through after the retry loop is reached exactly when the retries are negative. */
  lemma FallThroughIff(flags: Flags, script: Script)
    ensures SlotEnding(flags, script) == FellThrough <==> flags.retries < 0
  {
    if flags.retries >= 0 {
      TriesBounded(flags, script, 0);
    }
  }

  lemma RoundKeepsDiscipline(flags: Flags, trace: seq<Event>, round: Round)
    requires HeldAfter(flags.retries, trace) == Free
    ensures HeldAfter(flags.retries, AddRound(flags, trace, round)) == Free
  {
    if round.Slot? {
      var n, tail := SlotConcludes(flags, round.script);
      hide AdvanceAll, SlotTrace;
      SlotKeepsDiscipline(flags.retries, trace, round.id, n, tail);
    }
  }

  lemma SlotConcludes(flags: Flags, script: Script) returns (n: nat, tail: seq<Event>)
    ensures SlotTrace(flags, script) == Calls(n) + tail
    ensures (n == 0 || n <= flags.retries + 1) && Conclusion(tail, n)
  {
    n := Tries(flags, script);
    if flags.retries >= 0 {
      TriesBounded(flags, script, 0);
    }
    tail := if n == 0 || CutShort(flags, script, n) then []
            else Verdict(flags, script(n - 1).outcome, n - 1) + Note(flags, script(n - 1).outcome);
  }

  /**
   Request discipline.  However a request ends, and also while it goes on waiting, its trace holds
   no slot: each slot that was acquired has been released, by its own id, before the next one was
   acquired; HTTP calls happen only inside a slot, at most retries + 1 in each; and after its calls
   a slot tells the breaker at most one thing.
   */
  lemma {:induction false} RequestKeepsDiscipline(flags: Flags, rounds: seq<Round>, trace: seq<Event>)
    requires HeldAfter(flags.retries, trace) == Free
    ensures HeldAfter(flags.retries, RequestRun(flags, rounds, trace).1) == Free
    decreases |rounds|
  {
    if rounds != [] {
      RoundKeepsDiscipline(flags, trace, rounds[0]);
      if GoesOn(flags, rounds[0]) {
        RequestKeepsDiscipline(flags, rounds[1..], AddRound(flags, trace, rounds[0]));
      }
    }
  }

  // ---------------------------------------------------------------- what the discipline means

  function Count(trace: seq<Event>, e: Event): nat {
    if trace == [] then 0
    else Count(trace[..|trace| - 1], e) + (if trace[|trace| - 1] == e then 1 else 0)
  }

  /** Where a trace leaves no slot broken, an id is out by one exactly while it is held. */
  lemma {:induction false} EverySlotReleased(retries: int, trace: seq<Event>, id: string)
    requires HeldAfter(retries, trace) != Broken
    ensures Count(trace, Acquired(id)) ==
            Count(trace, Released(id)) +
            (if HeldAfter(retries, trace).Held? && HeldAfter(retries, trace).id == id then 1 else 0)
  {
    if trace != [] {
      EverySlotReleased(retries, trace[..|trace| - 1], id);
    }
  }

  function Acquisitions(trace: seq<Event>): nat {
    if trace == [] then 0
    else Acquisitions(trace[..|trace| - 1]) + (if trace[|trace| - 1].Acquired? then 1 else 0)
  }

  function CircuitEvents(trace: seq<Event>): nat {
    if trace == [] then 0
    else CircuitEvents(trace[..|trace| - 1]) +
         (if trace[|trace| - 1].CircuitSuccess? || trace[|trace| - 1].CircuitFailure? then 1 else 0)
  }

  /** The whole request makes at most retries + 1 HTTP calls and one breaker event for each slot it got. */
  lemma {:induction false} CallsPerSlot(retries: nat, trace: seq<Event>)
    requires HeldAfter(retries, trace) != Broken
    ensures var slots, h := Acquisitions(trace), HeldAfter(retries, trace);
            && Count(trace, HttpCall) + (if h.Held? then retries + 1 - h.calls else 0) <= slots * (retries + 1)
            && (h.Held? ==> h.calls <= retries + 1)
            && CircuitEvents(trace) + (if h.Held? && !h.judged then 1 else 0) <= slots
  {
    if trace != [] {
      CallsPerSlot(retries, trace[..|trace| - 1]);
      var slots := Acquisitions(trace[..|trace| - 1]);
      assert (slots + 1) * (retries + 1) == slots * (retries + 1) + retries + 1;
    }
  }

  lemma {:induction false} CallsAreNoVerdict(n: nat)
    ensures CircuitEvents(Calls(n)) == 0 && Count(Calls(n), HttpCall) == n
  {
    if n > 0 {
      CallsAreNoVerdict(n - 1);
      assert Calls(n)[..n - 1] == Calls(n - 1);
    }
  }

  lemma CountLast(trace: seq<Event>, e: Event)
    ensures CircuitEvents(trace + [e]) ==
            CircuitEvents(trace) + (if e.CircuitSuccess? || e.CircuitFailure? then 1 else 0)
    ensures Count(trace + [e], HttpCall) == Count(trace, HttpCall) + (if e == HttpCall then 1 else 0)
  {
    assert (trace + [e])[..|trace|] == trace;
  }

  /**
   A slot makes exactly its tries as HTTP calls, and tells the breaker exactly one thing on success
   and on a transport or server error that ran out of tries, and nothing on a client error, a rate
   limit or a cancellation, nor when it is told not to.
   */
  lemma SlotVerdictIff(flags: Flags, script: Script)
    ensures Count(SlotTrace(flags, script), HttpCall) == Tries(flags, script)
    ensures var ending := SlotEnding(flags, script);
            CircuitEvents(SlotTrace(flags, script)) ==
            if flags.recordCircuit && (ending.Returned? || ending.RaisedTransport? ||
                                       (ending.RaisedStatus? && ServerError(ending.status))) then 1 else 0
  {
    var n := Tries(flags, script);
    CallsAreNoVerdict(n);
    if n == 0 || CutShort(flags, script, n) {
      assert SlotTrace(flags, script) == Calls(n);
    } else {
      var o := script(n - 1).outcome;
      var tail := Verdict(flags, o, n - 1) + Note(flags, o);
      if tail == [] {
        assert SlotTrace(flags, script) == Calls(n);
      } else {
        assert |tail| == 1 && SlotTrace(flags, script) == Calls(n) + [tail[0]];
        CountLast(Calls(n), tail[0]);
      }
    }
  }

  // ---------------------------------------------------------------- what a finished request released

  /**
   The whole request: when it has ended, and at every moment it waits, each id was released as often
   as it was acquired; and for all its slots together it made at most retries + 1 HTTP calls and told
   the breaker at most one thing a slot.
   */
  lemma RequestReleasesAll(flags: Flags, rounds: seq<Round>, id: string)
    requires flags.retries >= 0
    ensures var trace := RequestRun(flags, rounds, []).1;
            && Count(trace, Acquired(id)) == Count(trace, Released(id))
            && Count(trace, HttpCall) <= Acquisitions(trace) * (flags.retries + 1)
            && CircuitEvents(trace) <= Acquisitions(trace)
  {
    RequestKeepsDiscipline(flags, rounds, []);
    EverySlotReleased(flags.retries, RequestRun(flags, rounds, []).1, id);
    CallsPerSlot(flags.retries, RequestRun(flags, rounds, []).1);
  }

  // ---------------------------------------------------------------- rate limits across both loops

  /** What the retry loop takes for a rate limit: 429, or a 403 with an exhausted quota. */
  predicate LimitHit(o: Outcome) {
    (o.Response? && o.status == 429) || QuotaExhausted(o)
  }

  /** The slot used up its tries, the last of them on a rate limit. */
  predicate UsedUpOnLimit(flags: Flags, script: Script) {
    flags.retries >= 0 && Tries(flags, script) == flags.retries + 1 && LimitHit(script(flags.retries).outcome)
  }

  lemma PlainZero()
    ensures ParseInt("0") == Some(0)
  {
    assert Durations.Strip("0") == "0" && DigitGroups("0");
    assert "0"[1..] == "" && WithoutUnderscores("") == "";
    assert ['0'] + "" == "0";
    assert WithoutUnderscores("0") == "0";
    assert "0"[..0] == "";
  }

  /** A slot ends with a rate limit, in the retry loop's sense, exactly when it used up its tries on one. */
  lemma LimitEndingIff(flags: Flags, script: Script)
    ensures LimitEnding(SlotEnding(flags, script)) <==> UsedUpOnLimit(flags, script)
    ensures UsedUpOnLimit(flags, script) ==>
              SlotEnding(flags, script) == EndingOf(script(flags.retries).outcome)
    ensures RateLimited(SlotEnding(flags, script)) ==> UsedUpOnLimit(flags, script)
  {
    PlainZero();
    hide ParseInt;
    if flags.retries >= 0 {
      TriesBounded(flags, script, 0);
    }
  }

  /** The same notion of an ending. */
  predicate LimitEnding(e: Ending) {
    e.RaisedStatus? && (e.status == 429 || (e.status == 403 && NothingRemains(e.remaining)))
  }

  /** The text says that nothing remains, but it is not the one text that the outer loop knows. */
  predicate OtherSpelling(o: Outcome) {
    QuotaExhausted(o) && o.remaining.text != "0"
  }

  /**
   A slot that used up its tries on a 429 or an exhausted quota, in a request that waits on rate
   limits: the request goes on if and only if it was a 429 or the header's text is 0.  Otherwise it
   ends there, with the rate limit.
   */
  lemma WaitingGoesOnIff(flags: Flags, id: string, script: Script, rest: seq<Round>, trace: seq<Event>)
    requires flags.waitOnRateLimit && UsedUpOnLimit(flags, script)
    ensures var o, round := script(flags.retries).outcome, Slot(id, script);
            RequestRun(flags, [round] + rest, trace) ==
            if OtherSpelling(o) then (Some(RaisedStatus(403, o.remaining)), AddRound(flags, trace, round))
            else RequestRun(flags, rest, AddRound(flags, trace, round))
  {
    LimitEndingIff(flags, script);
    var o, rounds := script(flags.retries).outcome, [Slot(id, script)] + rest;
    assert RateLimited(EndingOf(o)) <==> !OtherSpelling(o);
    assert OtherSpelling(o) ==> EndingOf(o) == RaisedStatus(403, o.remaining);
    hide ParseInt, SlotEnding, SlotTrace, Tries, NothingRemains, UsedUpOnLimit, EndingOf, RateLimited, AddRound;
    assert rounds[0] == Slot(id, script) && rounds[1..] == rest;
  }

  /** The rounds before the request's last one. */
  predicate AllGoOn(flags: Flags, rounds: seq<Round>) {
    forall i | 0 <= i < |rounds| :: GoesOn(flags, rounds[i])
  }

  /** The round's slot uses up its tries on an exhausted quota in another spelling than 0. */
  predicate Misread(flags: Flags, round: Round) {
    round.Slot? && UsedUpOnLimit(flags, round.script) && OtherSpelling(round.script(flags.retries).outcome)
  }

  /** The request reaches a round with the given property. */
  ghost predicate Reaches(flags: Flags, rounds: seq<Round>, p: Round -> bool) {
    exists i :: 0 <= i < |rounds| && AllGoOn(flags, rounds[..i]) && p(rounds[i])
  }

  lemma ReachesFirst(flags: Flags, rounds: seq<Round>, p: Round -> bool)
    requires rounds != []
    ensures Reaches(flags, rounds, p) <==>
            p(rounds[0]) || (GoesOn(flags, rounds[0]) && Reaches(flags, rounds[1..], p))
  {
    hide GoesOn;
    var rest := rounds[1..];
    assert AllGoOn(flags, rounds[..0]);
    forall i | 0 <= i < |rest|
      ensures rest[i] == rounds[i + 1]
      ensures AllGoOn(flags, rounds[..i + 1]) <==> GoesOn(flags, rounds[0]) && AllGoOn(flags, rest[..i])
    {
      assert rounds[..i + 1] == [rounds[0]] + rest[..i];
    }
    if i :| 0 <= i < |rounds| && AllGoOn(flags, rounds[..i]) && p(rounds[i]) {
      assert i > 0 ==> AllGoOn(flags, rounds[..i - 1 + 1]) && p(rest[i - 1]);
    }
    if i :| 0 <= i < |rest| && AllGoOn(flags, rest[..i]) && p(rest[i]) {
      assert GoesOn(flags, rounds[0]) ==> AllGoOn(flags, rounds[..i + 1]);
    }
  }

  /**
   The client promises that a request that waits on rate limits is never dropped because of one.
   It is dropped exactly when some round that it reaches uses up its tries on an exhausted quota
   whose header is not spelt 0.
   */
  lemma {:induction false} DroppedIff(flags: Flags, rounds: seq<Round>, trace: seq<Event>)
    requires flags.waitOnRateLimit
    ensures var ending := RequestRun(flags, rounds, trace).0;
            ending.Some? && LimitEnding(ending.value) <==> Reaches(flags, rounds, r => Misread(flags, r))
    decreases |rounds|
  {
    hide GoesOn, Misread, LimitEnding, RoundEnding, AddRound, Reaches;
    if rounds == [] {
      NothingReached(flags, r => Misread(flags, r));
    } else {
      RoundDropsIff(flags, rounds[0]);
      ReachesFirst(flags, rounds, r => Misread(flags, r));
      if GoesOn(flags, rounds[0]) {
        DroppedIff(flags, rounds[1..], AddRound(flags, trace, rounds[0]));
      } else {
        assert RequestRun(flags, rounds, trace).0 == Some(RoundEnding(flags, rounds[0]));
      }
    }
  }

  lemma NothingReached(flags: Flags, p: Round -> bool)
    ensures !Reaches(flags, [], p)
  {
  }

  lemma RoundDropsIff(flags: Flags, round: Round)
    requires flags.waitOnRateLimit
    ensures Misread(flags, round) <==> !GoesOn(flags, round) && LimitEnding(RoundEnding(flags, round))
  {
    if round.Slot? {
      LimitEndingIff(flags, round.script);
      PlainZero();
      hide ParseInt, SlotEnding, Tries;
    }
  }

  /** The header -1 is such a spelling: without retries the first such answer ends a waiting request. */
  lemma WaitingRequestDropped(id: string, flags: Flags)
    requires flags.waitOnRateLimit && flags.retries == 0
    ensures var script := (i: nat) => Try(Response(403, Header("-1"), 0.0), false);
            RequestRun(flags, [Slot(id, script)], []) ==
            (Some(RaisedStatus(403, Header("-1"))),
             [Acquired(id), HttpCall] + Note(flags, script(0).outcome) + [Released(id)])
  {
    MinusOne();
    hide ParseInt;
    var o := Response(403, Header("-1"), 0.0);
    var script: Script := (i: nat) => Try(o, false);
    assert QuotaExhausted(o) && Tries(flags, script) == 1;
    WaitingGoesOnIff(flags, id, script, [], []);
    assert [Slot(id, script)] + [] == [Slot(id, script)];
    assert Calls(1) == [HttpCall];
    assert |"-1"| == 2 && |"0"| == 1;
    assert OtherSpelling(o) && Verdict(flags, o, 0) == [];
    assert SlotTrace(flags, script) == [HttpCall] + Note(flags, o);
    assert [] + ([Acquired(id)] + ([HttpCall] + Note(flags, o)) + [Released(id)]) ==
           [Acquired(id), HttpCall] + Note(flags, o) + [Released(id)];
  }

  lemma MinusOne()
    ensures ParseInt("-1") == Some(-1)
  {
    assert Durations.Strip("-1") == "-1" && "-1"[1..] == "1" && DigitGroups("1");
    assert "1"[1..] == "" && WithoutUnderscores("") == "" && ['1'] + "" == "1";
    assert WithoutUnderscores("1") == "1";
    assert "1"[..0] == "";
  }

  /**
   A request that waits on circuits is never turned away by one; one that does not wait is turned
   away exactly at the first round that finds the circuit open.
   */
  lemma {:induction false} TurnedAwayIff(flags: Flags, rounds: seq<Round>, trace: seq<Event>)
    ensures RequestRun(flags, rounds, trace).0 == Some(RaisedCircuitOpen) <==>
            !flags.waitOnCircuit && Reaches(flags, rounds, (r: Round) => r.OpenCircuit?)
    decreases |rounds|
  {
    if rounds == [] {
      NothingReached(flags, (r: Round) => r.OpenCircuit?);
    } else {
      var first := rounds[0];
      if first.Slot? {
        SlotNeverCircuit(flags, first.script);
      }
      ReachesFirst(flags, rounds, (r: Round) => r.OpenCircuit?);
      hide SlotEnding, AddRound, Reaches, RateLimited;
      if GoesOn(flags, first) {
        TurnedAwayIff(flags, rounds[1..], AddRound(flags, trace, first));
      }
    }
  }

  lemma SlotNeverCircuit(flags: Flags, script: Script)
    ensures SlotEnding(flags, script) != RaisedCircuitOpen
  {
  }
}
