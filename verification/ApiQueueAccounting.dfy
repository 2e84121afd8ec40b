/** What every interleaving of the queue's steps keeps: the counters, the stacks and the table agree. */
module ApiQueueAccounting {
  import opened Options
  import opened ApiQueue

  ghost function ActiveIds(q: Queue, key: string): set<string> {
    set id | id in q.requests && q.requests[id].pacingKey == key && q.requests[id].state.Active?
  }

  ghost function WaitingIds(q: Queue, key: string): set<string> {
    set id | id in q.requests && q.requests[id].pacingKey == key && !q.requests[id].state.Active?
  }

  ghost predicate Distinct(stack: seq<string>) {
    forall i, j | 0 <= i < j < |stack| :: stack[i] != stack[j]
  }

  ghost function Elements(stack: seq<string>): set<string> {
    set id | id in stack
  }

  /** The books of one pacing key are in order. */
  ghost predicate Balanced(q: Queue, key: string) {
    && SourceOf(q, key).active == |StackOf(q, key)|
    && SourceOf(q, key).queued == |WaitingIds(q, key)|
    && Distinct(StackOf(q, key))
    && Elements(StackOf(q, key)) == ActiveIds(q, key)
  }

  ghost predicate Accounted(cfg: Config, q: Queue) {
    forall key: string :: Balanced(q, key) && SourceOf(q, key).active <= cfg(key).maxConcurrent
  }

  // ---------------------------------------------------------------- stacks

  lemma {:induction false} DistinctCount(stack: seq<string>)
    requires Distinct(stack)
    ensures |Elements(stack)| == |stack|
  {
    if stack != [] {
      var init, last := stack[..|stack| - 1], stack[|stack| - 1];
      DistinctCount(init);
      assert Elements(stack) == Elements(init) + {last};
    }
  }

  lemma {:induction false} RemoveFirstElements(stack: seq<string>, id: string)
    requires Distinct(stack)
    ensures Distinct(RemoveFirst(stack, id))
    ensures Elements(RemoveFirst(stack, id)) == Elements(stack) - {id}
    ensures |RemoveFirst(stack, id)| == if id in stack then |stack| - 1 else |stack|
  {
    if stack != [] {
      var tail := stack[1..];
      assert stack == [stack[0]] + tail;
      assert Elements(stack) == {stack[0]} + Elements(tail);
      if stack[0] != id {
        RemoveFirstElements(tail, id);
        var r := RemoveFirst(tail, id);
        assert forall x :: x in r <==> x in Elements(r);
        assert Elements([stack[0]] + r) == {stack[0]} + Elements(r);
      }
    }
  }

  // ---------------------------------------------------------------- each step

  lemma OtherSourcesKept(cfg: Config, q: Queue, e: Event, key: string)
    requires Enabled(q, e) && KeyOf(q, e) != key
    ensures SourceOf(Step(cfg, q, e), key) == SourceOf(q, key)
    ensures StackOf(Step(cfg, q, e), key) == StackOf(q, key)
  {
  }

  /** The requests of a key are those of another queue, as far as the books go. */
  ghost predicate SameRequests(q: Queue, q': Queue, key: string) {
    forall id ::
      && (id in q.requests && q.requests[id].pacingKey == key <==>
          id in q'.requests && q'.requests[id].pacingKey == key)
      && (id in q.requests && q.requests[id].pacingKey == key ==>
          q.requests[id].state.Active? == q'.requests[id].state.Active?)
  }

  lemma OtherRequestsKept(cfg: Config, q: Queue, e: Event, key: string)
    requires Enabled(q, e) && KeyOf(q, e) != key
    requires Balanced(q, KeyOf(q, e))
    ensures SameRequests(q, Step(cfg, q, e), key)
  {
    var k := KeyOf(q, e);
    if e.ReleaseLastEv? && StackOf(q, k) != [] {
      var stack := StackOf(q, k);
      assert stack[|stack| - 1] in Elements(stack);
    }
    hide Balanced, Distinct, RemoveFirst, Earliest;
  }

  lemma SameIds(q: Queue, q': Queue, key: string)
    requires SameRequests(q, q', key)
    ensures ActiveIds(q, key) == ActiveIds(q', key) && WaitingIds(q, key) == WaitingIds(q', key)
  {
  }

  /** Keys other than the one a step is about are not touched. */
  lemma OtherKeysKept(cfg: Config, q: Queue, e: Event, key: string)
    requires Enabled(q, e) && KeyOf(q, e) != key
    requires forall k: string :: Balanced(q, k)
    ensures SourceOf(Step(cfg, q, e), key) == SourceOf(q, key)
    ensures StackOf(Step(cfg, q, e), key) == StackOf(q, key)
    ensures ActiveIds(Step(cfg, q, e), key) == ActiveIds(q, key)
    ensures WaitingIds(Step(cfg, q, e), key) == WaitingIds(q, key)
  {
    hide Step, SameRequests;
    OtherSourcesKept(cfg, q, e, key);
    OtherRequestsKept(cfg, q, e, key);
    SameIds(q, Step(cfg, q, e), key);
  }

  lemma EnterKeeps(q: Queue, id: string, key: string, now: real)
    requires id !in q.requests && Balanced(q, key)
    ensures Balanced(Enter(q, id, key, now), key)
  {
    var q' := Enter(q, id, key, now);
    assert WaitingIds(q', key) == WaitingIds(q, key) + {id};
    assert ActiveIds(q', key) == ActiveIds(q, key);
  }

  lemma GrantIs(q: Queue, pacing: Pacing, id: string, now: real, at: real)
    requires Waits(q, id) && Grants(q, pacing, q.requests[id].pacingKey, now)
    ensures var key, q' := q.requests[id].pacingKey, Poll(q, pacing, id, now, at);
            && StackOf(q', key) == StackOf(q, key) + [id]
            && SourceOf(q', key).active == SourceOf(q, key).active + 1
            && SourceOf(q', key).queued == LeaveQueued(SourceOf(q, key).queued)
            && q'.requests.Keys == q.requests.Keys
            && q'.requests[id].pacingKey == key && q'.requests[id].state.Active?
            && forall other | other in q.requests && other != id :: q'.requests[other] == q.requests[other]
  {
  }

  lemma GrantKeeps(q: Queue, pacing: Pacing, id: string, now: real, at: real)
    requires Waits(q, id) && Balanced(q, q.requests[id].pacingKey)
    requires Grants(q, pacing, q.requests[id].pacingKey, now)
    ensures Balanced(Poll(q, pacing, id, now, at), q.requests[id].pacingKey)
  {
    GrantIs(q, pacing, id, now, at);
    hide Poll, Grants, SourceOf, StackOf;
    var key := q.requests[id].pacingKey;
    var q' := Poll(q, pacing, id, now, at);
    var stack := StackOf(q, key);
    assert ActiveIds(q', key) == ActiveIds(q, key) + {id};
    assert id in WaitingIds(q, key) && WaitingIds(q', key) == WaitingIds(q, key) - {id};
    assert id !in Elements(stack);
    assert Elements(stack + [id]) == Elements(stack) + {id};
  }

  lemma WaitKeeps(q: Queue, pacing: Pacing, id: string, now: real, at: real)
    requires Waits(q, id) && Balanced(q, q.requests[id].pacingKey)
    requires !Grants(q, pacing, q.requests[id].pacingKey, now)
    ensures Balanced(Poll(q, pacing, id, now, at), q.requests[id].pacingKey)
  {
    var key := q.requests[id].pacingKey;
    var q' := Poll(q, pacing, id, now, at);
    assert q'.requests.Keys == q.requests.Keys;
    assert !q'.requests[id].state.Active?;
    assert ActiveIds(q', key) == ActiveIds(q, key);
    assert WaitingIds(q', key) == WaitingIds(q, key);
    assert StackOf(q', key) == StackOf(q, key);
  }

  lemma CancelKeeps(q: Queue, id: string)
    requires Waits(q, id) && Balanced(q, q.requests[id].pacingKey)
    ensures Balanced(Cancel(q, id), q.requests[id].pacingKey)
  {
    var key := q.requests[id].pacingKey;
    var q' := Cancel(q, id);
    assert id in WaitingIds(q, key);
    assert WaitingIds(q', key) == WaitingIds(q, key) - {id};
    assert ActiveIds(q', key) == ActiveIds(q, key);
  }

  lemma ReleaseKeeps(q: Queue, key: string, id: string)
    requires id in q.requests ==> IsActive(q, id) && q.requests[id].pacingKey == key
    requires Balanced(q, key)
    ensures Balanced(Release(q, key, id), key)
    ensures SourceOf(Release(q, key, id), key).active <= SourceOf(q, key).active
  {
    var q' := Release(q, key, id);
    if id in q.requests {
      RemoveFirstElements(StackOf(q, key), id);
      assert id in ActiveIds(q, key);
      assert id in StackOf(q, key);
      assert ActiveIds(q', key) == ActiveIds(q, key) - {id};
      assert WaitingIds(q', key) == WaitingIds(q, key);
    } else {
      assert ActiveIds(q', key) == ActiveIds(q, key);
      assert WaitingIds(q', key) == WaitingIds(q, key);
    }
  }

  lemma ReleaseLastKeeps(q: Queue, key: string)
    requires Balanced(q, key)
    ensures Balanced(ReleaseLast(q, key), key)
    ensures SourceOf(ReleaseLast(q, key), key).active <= SourceOf(q, key).active
  {
    var q' := ReleaseLast(q, key);
    var stack := StackOf(q, key);
    if stack != [] {
      var last := stack[|stack| - 1];
      assert last in Elements(stack);
      assert Elements(stack[..|stack| - 1]) == Elements(stack) - {last};
      assert ActiveIds(q', key) == ActiveIds(q, key) - {last};
      assert WaitingIds(q', key) == WaitingIds(q, key);
    } else {
      assert ActiveIds(q', key) == ActiveIds(q, key);
      assert WaitingIds(q', key) == WaitingIds(q, key);
    }
  }

  lemma PauseKeeps(q: Queue, key: string, seconds: real, reason: string, now: real, later: real)
    requires Balanced(q, key)
    ensures Balanced(Pause(q, key, seconds, reason, now, later), key)
    ensures SourceOf(Pause(q, key, seconds, reason, now, later), key).active == SourceOf(q, key).active
  {
    var q' := Pause(q, key, seconds, reason, now, later);
    assert ActiveIds(q', key) == ActiveIds(q, key);
    assert WaitingIds(q', key) == WaitingIds(q, key);
  }

  /** One step keeps the books of every key. */
  lemma StepKeepsAccounts(cfg: Config, q: Queue, e: Event)
    requires Accounted(cfg, q) && Enabled(q, e)
    ensures Accounted(cfg, Step(cfg, q, e))
  {
    var q' := Step(cfg, q, e);
    assert forall k: string :: Balanced(q, k);
    forall key: string
      ensures Balanced(q', key) && SourceOf(q', key).active <= cfg(key).maxConcurrent
    {
      assert Balanced(q, key);
      if KeyOf(q, e) != key {
        OtherKeysKept(cfg, q, e, key);
      } else {
        match e
        case EnterEv(id, _, now) => EnterKeeps(q, id, key, now);
        case PollEv(id, now, at) =>
          if Grants(q, cfg(key), key, now) {
            GrantKeeps(q, cfg(key), id, now, at);
          } else {
            WaitKeeps(q, cfg(key), id, now, at);
          }
        case CancelEv(id) => CancelKeeps(q, id);
        case ReleaseEv(_, id) => ReleaseKeeps(q, key, id);
        case ReleaseLastEv(_) => ReleaseLastKeeps(q, key);
        case PauseEv(_, seconds, reason, now, later) => PauseKeeps(q, key, seconds, reason, now, later);
      }
    }
  }

  // ---------------------------------------------------------------- whole runs

  lemma {:induction false} RunKeepsAccounts(cfg: Config, q: Queue, clock: real, events: seq<Event>)
    requires Accounted(cfg, q) && IsRun(cfg, q, clock, events)
    ensures Accounted(cfg, After(cfg, q, clock, events))
    decreases |events|
  {
    if events != [] {
      StepKeepsAccounts(cfg, q, events[0]);
      RunKeepsAccounts(cfg, Step(cfg, q, events[0]), ClockAfter(clock, events[0]), events[1..]);
    }
  }

  /**
   In every state any run reaches from the empty queue, for every pacing key: the active counter,
   the length of the stack and the number of active requests are one number, within the
   concurrency limit; the queued counter is the number of requests that still wait; and no id is
   on the stack twice.
   */
  lemma QueueAccounting(cfg: Config, clock: real, events: seq<Event>, key: string)
    requires IsRun(cfg, EMPTY_QUEUE, clock, events)
    ensures var q := After(cfg, EMPTY_QUEUE, clock, events);
            && SourceOf(q, key).active == |StackOf(q, key)| == |ActiveIds(q, key)|
            && SourceOf(q, key).active <= cfg(key).maxConcurrent
            && SourceOf(q, key).queued == |WaitingIds(q, key)|
            && Distinct(StackOf(q, key))
  {
    forall k: string ensures Balanced(EMPTY_QUEUE, k) {
      assert ActiveIds(EMPTY_QUEUE, k) == {} && WaitingIds(EMPTY_QUEUE, k) == {};
    }
    RunKeepsAccounts(cfg, EMPTY_QUEUE, clock, events);
    var q := After(cfg, EMPTY_QUEUE, clock, events);
    assert Balanced(q, key);
    DistinctCount(StackOf(q, key));
  }

  // ---------------------------------------------------------------- releases

  /**
   A release by id keeps the books exactly when the id is unknown, or belongs to an active request
   of the key it is released for.  Releasing an id that still waits, or under another key, breaks
   them.
   */
  lemma ReleaseKeepsBooksIff(q: Queue, key: string, id: string)
    requires forall k: string :: Balanced(q, k)
    ensures (forall k: string :: Balanced(Release(q, key, id), k)) <==>
            (id !in q.requests || (IsActive(q, id) && q.requests[id].pacingKey == key))
  {
    var q' := Release(q, key, id);
    if id !in q.requests || (IsActive(q, id) && q.requests[id].pacingKey == key) {
      var cfg: Config := k => Pacing(0.0, 0);
      forall k: string ensures Balanced(q', k) {
        assert Balanced(q, k) && Balanced(q, key);
        if k == key {
          ReleaseKeeps(q, key, id);
        } else {
          OtherKeysKept(cfg, q, ReleaseEv(key, id), k);
        }
      }
    } else {
      var home := q.requests[id].pacingKey;
      assert Balanced(q, home) && Balanced(q, key);
      if Waits(q, id) {
        assert id in WaitingIds(q, home);
        assert WaitingIds(q', home) == WaitingIds(q, home) - {id};
        assert !Balanced(q', home);
      } else {
        assert id in ActiveIds(q, home) && id !in ActiveIds(q', home);
        assert id in Elements(StackOf(q, home));
        assert StackOf(q', home) == StackOf(q, home);
        assert !Balanced(q', home);
      }
    }
  }

  /** The ids that a run brings into the queue. */
  ghost function Entered(events: seq<Event>): set<string> {
    set e | e in events && e.EnterEv? :: e.id
  }

  lemma {:induction false} AbsentStaysAbsent(cfg: Config, q: Queue, clock: real, events: seq<Event>, id: string)
    requires IsRun(cfg, q, clock, events) && id !in q.requests && id !in Entered(events)
    ensures id !in After(cfg, q, clock, events).requests
    decreases |events|
  {
    if events != [] {
      if events[0].EnterEv? {
        assert events[0].id in Entered(events);
      }
      assert Entered(events[1..]) <= Entered(events);
      AbsentStaysAbsent(cfg, Step(cfg, q, events[0]), ClockAfter(clock, events[0]), events[1..], id);
    }
  }

  /** The counters and stacks that anything in the program can observe. */
  ghost predicate SameBooks(q: Queue, q': Queue) {
    q.requests == q'.requests &&
    forall key: string :: SourceOf(q, key) == SourceOf(q', key) && StackOf(q, key) == StackOf(q', key)
  }

  /**
   Releasing an id again changes nothing, at once or after any run in between, for any key: ids
   are drawn at random, so the run does not hand out the same id a second time.
   */
  lemma SecondReleaseIsNoOp(cfg: Config, q: Queue, key: string, id: string,
                            clock: real, events: seq<Event>, key2: string)
    requires IsRun(cfg, Release(q, key, id), clock, events) && id !in Entered(events)
    ensures var q' := After(cfg, Release(q, key, id), clock, events);
            SameBooks(Release(q', key2, id), q')
  {
    AbsentStaysAbsent(cfg, Release(q, key, id), clock, events, id);
  }

  lemma {:induction false} RemoveLast(stack: seq<string>, id: string)
    requires id !in stack
    ensures RemoveFirst(stack + [id], id) == stack
  {
    if stack != [] {
      assert stack + [id] == [stack[0]] + (stack[1..] + [id]);
      RemoveLast(stack[1..], id);
    }
  }

  /**
   A grant and its release undo each other: released by its id or as the most recent one, the
   request is gone from the table and the stack and the counter are as before the grant.
   */
  lemma GrantThenRelease(q: Queue, pacing: Pacing, id: string, now: real, at: real)
    requires Waits(q, id) && Balanced(q, q.requests[id].pacingKey)
    requires Grants(q, pacing, q.requests[id].pacingKey, now)
    ensures var key, granted := q.requests[id].pacingKey, Poll(q, pacing, id, now, at);
            forall q' | q' in {Release(granted, key, id), ReleaseLast(granted, key)} ::
              && q'.requests == q.requests - {id}
              && StackOf(q', key) == StackOf(q, key)
              && SourceOf(q', key).active == SourceOf(q, key).active
              && SourceOf(q', key).lastRequestAt == at
  {
    var key := q.requests[id].pacingKey;
    assert id in WaitingIds(q, key) && id !in ActiveIds(q, key);
    assert id !in Elements(StackOf(q, key));
    RemoveLast(StackOf(q, key), id);
  }

  /** A release without an id takes the most recent slot, if there is one, and counts down in any case. */
  lemma ReleaseWithoutId(q: Queue, key: string)
    ensures var q' := ReleaseLast(q, key);
            && SourceOf(q', key).active == (if SourceOf(q, key).active > 0 then SourceOf(q, key).active - 1 else 0)
            && SourceOf(q', key).lastRequestAt == SourceOf(q, key).lastRequestAt
            && (StackOf(q, key) == [] ==> StackOf(q', key) == [] && q'.requests == q.requests)
            && forall rest, id | StackOf(q, key) == rest + [id] ::
                 StackOf(q', key) == rest && q'.requests == q.requests - {id}
  {
  }

  /**
   A pause reaches exactly the waiting requests of its key, and tells them its reason: they are rate
   limited while it lasts, or if the reason is a rate limit, and otherwise waiting for the reason, or
   queued without one.  Every other request is left as it was.
   */
  lemma PauseReachesWaiters(q: Queue, key: string, seconds: real, reason: string, now: real, later: real)
    requires 0.0 < seconds && now <= later
    ensures var q' := Pause(q, key, seconds, reason, now, later);
            && q'.requests.Keys == q.requests.Keys
            && forall id | id in q.requests ::
                 if Waits(q, id) && q.requests[id].pacingKey == key
                 then
                   var limited := later < SourceOf(q', key).pauseUntil ||
                     reason in {"retry-after", "token_quota", "request_quota", "github_quota", "rate_limit"};
                   var state := if limited then RateLimited else if reason == "" then Queued else Waiting;
                   q'.requests[id] == q.requests[id].(state := state, waitReason := reason)
                 else q'.requests[id] == q.requests[id]
  {
  }
}
