/** The queue's three module-level dictionaries, updated in place as backend/api_queue.py does it. */
module ApiQueueTable {
  import opened Options
  import opened ApiQueue

  class Table {
    var sources: map<string, SourceState>
    var requests: map<string, ApiRequest>
    var stacks: map<string, seq<string>>

    constructor ()
      ensures Model() == EMPTY_QUEUE
    {
      sources, requests, stacks := map[], map[], map[];
    }

    ghost function Model(): Queue
      reads this
    {
      Queue(sources, requests, stacks)
    }

    function Source(key: string): (s: SourceState)
      reads this
      ensures s == SourceOf(Model(), key)
    {
      if key in sources then sources[key] else FRESH_SOURCE
    }

    function Stack(key: string): (s: seq<string>)
      reads this
      ensures s == StackOf(Model(), key)
    {
      if key in stacks then stacks[key] else []
    }

    /** await_api_slot up to its wait loop. */
    method EnterQueue(id: string, key: string, now: real)
      modifies this
      ensures Model() == Enter(old(Model()), id, key, now)
    {
      var state := Source(key);
      requests := requests[id := ApiRequest(key, Queued, now, None, "")];
      sources := sources[key := state.(queued := state.queued + 1)];
    }

    /** One pass of the wait loop; a pass that is granted also leaves the loop. */
    method PollOnce(pacing: Pacing, id: string, now: real, at: real) returns (granted: bool, sleep: real)
      requires Waits(Model(), id)
      modifies this
      ensures Model() == Poll(old(Model()), pacing, id, now, at)
      ensures granted == Grants(old(Model()), pacing, old(requests[id].pacingKey), now)
      ensures granted <==> IsActive(Model(), id)
      ensures !granted ==> sleep == SleepAfter(old(Model()), pacing, old(requests[id].pacingKey), now)
      ensures !granted ==> 0.0 < sleep <= 1.0
    {
      var req := requests[id];
      var key := req.pacingKey;
      var state := Source(key);
      var wait;
      if state.active >= pacing.maxConcurrent {
        sources := sources[key := state.(waitReason := "concurrency")];
        requests := requests[id := req.(state := Waiting, waitReason := "concurrency")];
        wait := 0.25;
      } else {
        var earliest := Max(state.pauseUntil, state.lastRequestAt + pacing.minInterval);
        if earliest > now {
          var reason := if state.waitReason != "" then state.waitReason else "pacing";
          var paused := state.pauseUntil > now;
          if paused && reason in RATE_LIMIT_REASONS {
            req := req.(state := RateLimited);
          } else {
            req := req.(state := Waiting);
          }
          requests := requests[id := req.(waitReason := reason)];
          sources := sources[key := state.(waitReason := reason)];
          wait := earliest - now;
        } else {
          state := state.(active := state.active + 1, lastRequestAt := at, waitReason := "");
          requests := requests[id := req.(state := Active, waitReason := "", startedAt := Some(at))];
          stacks := stacks[key := Stack(key) + [id]];
          state := state.(queued := if state.queued > 0 then state.queued - 1 else 0);
          sources := sources[key := state];
          return true, 0.0;
        }
      }
      return false, Min(wait, 1.0);
    }

    /** The exit code of await_api_slot for a caller that is cancelled while it waits. */
    method LeaveQueue(id: string)
      requires Waits(Model(), id)
      modifies this
      ensures Model() == Cancel(old(Model()), id)
    {
      var key := requests[id].pacingKey;
      var state := Source(key);
      sources := sources[key := state.(queued := if state.queued > 0 then state.queued - 1 else 0)];
      requests := requests - {id};
    }

    /** release_api_slot: by id when one is given, otherwise the most recent grant. */
    method ReleaseApiSlot(key: string, id: Option<string>)
      modifies this
      ensures Model() == if id.Some? then Release(old(Model()), key, id.value)
                         else ReleaseLast(old(Model()), key)
    {
      if id.Some? {
        ReleaseById(key, id.value);
      } else {
        ReleaseMostRecent(key);
      }
    }

    method ReleaseById(key: string, id: string)
      modifies this
      ensures Model() == Release(old(Model()), key, id)
    {
      var state := Source(key);
      var stack := Stack(key);
      if id in requests {
        requests := requests - {id};
        if id in stack {
          stack := RemoveFirst(stack, id);
        } else {
          RemoveFirstAbsent(stack, id);
        }
        state := state.(active := if state.active > 0 then state.active - 1 else 0);
      }
      stacks := stacks[key := stack];
      sources := sources[key := state];
    }

    method ReleaseMostRecent(key: string)
      modifies this
      ensures Model() == ReleaseLast(old(Model()), key)
    {
      var state := Source(key);
      var stack := Stack(key);
      if stack != [] {
        var rid := stack[|stack| - 1];
        stack := stack[..|stack| - 1];
        requests := requests - {rid};
      }
      stacks := stacks[key := stack];
      sources := sources[key := state.(active := if state.active > 0 then state.active - 1 else 0)];
    }

    lemma RemoveFirstAbsent(stack: seq<string>, id: string)
      requires id !in stack
      ensures RemoveFirst(stack, id) == stack
    {
    }

    /** schedule_source_pause. */
    method ScheduleSourcePause(key: string, seconds: real, reason: string, now: real, later: real)
      modifies this
      ensures Model() == Pause(old(Model()), key, seconds, reason, now, later)
    {
      if seconds <= 0.0 {
        return;
      }
      var length := seconds;
      if length > MAX_SOURCE_PAUSE_SECONDS {
        length := MAX_SOURCE_PAUSE_SECONDS;
      }
      var state := Source(key);
      sources := sources[key := state.(pauseUntil := Max(state.pauseUntil, now + length), waitReason := reason)];
      SyncRequestWaitStates(key, later);
    }

    /** _sync_request_wait_states: one request of the table after the other. */
    method SyncRequestWaitStates(key: string, now: real)
      modifies this`requests
      ensures requests == SyncRequests(old(requests), key, old(Source(key)), now)
    {
      var state := Source(key);
      var todo := requests.Keys;
      while todo != {}
        invariant todo <= requests.Keys == old(requests.Keys)
        invariant forall id | id in requests ::
          requests[id] == if id in todo then old(requests)[id] else SyncRequest(old(requests)[id], key, state, now)
        decreases |todo|
      {
        var id :| id in todo;
        var req := requests[id];
        if req.pacingKey == key && req.state != Active {
          var reason := state.waitReason;
          if state.pauseUntil > now || reason in RATE_LIMIT_REASONS {
            req := req.(state := RateLimited);
          } else {
            req := req.(state := if reason != "" then Waiting else Queued);
          }
          requests := requests[id := req.(waitReason := reason)];
        }
        todo := todo - {id};
      }
    }
  }
}
