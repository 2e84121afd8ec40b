/** What the table of the outbound queue (backend/api_queue.py) says of a request while it is in it. */
module ApiQueueRequests {
  import opened Options
  import opened ApiQueue
  import opened ApiQueueAccounting

  /** The event hands a slot to the request. */
  predicate Starts(cfg: Config, q: Queue, e: Event, id: string)
    requires Enabled(q, e)
  {
    e.PollEv? && e.id == id && IsGrant(cfg, q, e, q.requests[id].pacingKey)
  }

  predicate Enters(e: Event, id: string) {
    e.EnterEv? && e.id == id
  }

  /** A request comes into the table only by entering, and a step that leaves it there changes its start
      time only when it hands it a slot, and its key and the time it was queued never. */
  lemma StepKeepsRequest(cfg: Config, q: Queue, e: Event, id: string)
    requires Enabled(q, e) && !Enters(e, id) && id in Step(cfg, q, e).requests
    ensures id in q.requests
    ensures var r, r' := q.requests[id], Step(cfg, q, e).requests[id];
            && r'.pacingKey == r.pacingKey && r'.queuedAt == r.queuedAt
            && (Starts(cfg, q, e, id) ==> !r.state.Active? && r'.state.Active? && r'.startedAt == Some(e.at))
            && (!Starts(cfg, q, e, id) ==> r'.startedAt == r.startedAt && (r'.state.Active? <==> r.state.Active?))
  {
  }

  /** Entering, as the table shows it. */
  lemma EnteredAs(cfg: Config, q: Queue, id: string, key: string, now: real)
    requires Enabled(q, EnterEv(id, key, now))
    ensures var q' := Step(cfg, q, EnterEv(id, key, now));
            id in q'.requests && q'.requests[id] == ApiRequest(key, Queued, now, None, "")
  {
  }

  /** The time at which a run hands the request its slot, if it does. */
  ghost function StartedBy(cfg: Config, q: Queue, clock: real, events: seq<Event>, id: string): Option<real>
    requires IsRun(cfg, q, clock, events)
    decreases |events|
  {
    if events == [] then None
    else if Starts(cfg, q, events[0], id) then Some(events[0].at)
    else StartedBy(cfg, Step(cfg, q, events[0]), ClockAfter(clock, events[0]), events[1..], id)
  }

  /** A request that is in the table after a run that it did not enter in was there all along. */
  lemma {:induction false} StaysInTable(cfg: Config, q: Queue, clock: real, events: seq<Event>, id: string)
    requires IsRun(cfg, q, clock, events) && forall e | e in events :: !Enters(e, id)
    requires id in After(cfg, q, clock, events).requests
    ensures id in q.requests
    decreases |events|
  {
    if events != [] {
      assert events[0] in events;
      StaysInTable(cfg, Step(cfg, q, events[0]), ClockAfter(clock, events[0]), events[1..], id);
      StepKeepsRequest(cfg, q, events[0], id);
    }
  }

  lemma {:induction false} ActiveNeverStarts(cfg: Config, q: Queue, clock: real, events: seq<Event>, id: string)
    requires IsRun(cfg, q, clock, events) && forall e | e in events :: !Enters(e, id)
    requires id in q.requests && q.requests[id].state.Active? && id in After(cfg, q, clock, events).requests
    ensures StartedBy(cfg, q, clock, events, id) == None
    ensures After(cfg, q, clock, events).requests[id].startedAt == q.requests[id].startedAt
    ensures After(cfg, q, clock, events).requests[id].state.Active?
    decreases |events|
  {
    if events != [] {
      var e := events[0];
      assert e in events;
      var q', clock' := Step(cfg, q, e), ClockAfter(clock, e);
      StaysInTable(cfg, q', clock', events[1..], id);
      StepKeepsRequest(cfg, q, e, id);
      hide Enabled, Step, Starts;
      ActiveNeverStarts(cfg, q', clock', events[1..], id);
    }
  }

  lemma {:induction false} WaiterRecord(cfg: Config, q: Queue, clock: real, events: seq<Event>, id: string)
    requires IsRun(cfg, q, clock, events) && forall e | e in events :: !Enters(e, id)
    requires id in q.requests && Waits(q, id) && q.requests[id].startedAt == None
    requires id in After(cfg, q, clock, events).requests
    ensures var r, started := After(cfg, q, clock, events).requests[id], StartedBy(cfg, q, clock, events, id);
            && r.pacingKey == q.requests[id].pacingKey && r.queuedAt == q.requests[id].queuedAt
            && r.startedAt == started && (r.state.Active? <==> started.Some?)
    decreases |events|
  {
    if events != [] {
      var e := events[0];
      assert e in events;
      var q', clock' := Step(cfg, q, e), ClockAfter(clock, e);
      StaysInTable(cfg, q', clock', events[1..], id);
      StepKeepsRequest(cfg, q, e, id);
      if Starts(cfg, q, e, id) {
        StartedRecord(cfg, q', clock', events[1..], id);
        hide Enabled, Step, Starts;
        ActiveNeverStarts(cfg, q', clock', events[1..], id);
      } else {
        hide Enabled, Step, Starts;
        WaiterRecord(cfg, q', clock', events[1..], id);
      }
    }
  }

  lemma {:induction false} StartedRecord(cfg: Config, q: Queue, clock: real, events: seq<Event>, id: string)
    requires IsRun(cfg, q, clock, events) && forall e | e in events :: !Enters(e, id)
    requires id in q.requests && id in After(cfg, q, clock, events).requests
    ensures var r := After(cfg, q, clock, events).requests[id];
            r.pacingKey == q.requests[id].pacingKey && r.queuedAt == q.requests[id].queuedAt
    decreases |events|
  {
    if events != [] {
      var e := events[0];
      assert e in events;
      StaysInTable(cfg, Step(cfg, q, e), ClockAfter(clock, e), events[1..], id);
      StepKeepsRequest(cfg, q, e, id);
      hide Enabled, Step, Starts;
      StartedRecord(cfg, Step(cfg, q, e), ClockAfter(clock, e), events[1..], id);
    }
  }

  /**
   The table tells the truth: as long as a request is in it, it shows the key and the time with which
   the request entered; it shows the request as active if and only if it has been handed a slot, and
   then the time at which it was.
   */
  lemma RequestRecord(cfg: Config, q: Queue, clock: real, id: string, key: string, now: real, events: seq<Event>)
    requires IsRun(cfg, q, clock, [EnterEv(id, key, now)] + events) && forall e | e in events :: !Enters(e, id)
    requires id in After(cfg, q, clock, [EnterEv(id, key, now)] + events).requests
    ensures var all := [EnterEv(id, key, now)] + events;
            var r := After(cfg, q, clock, all).requests[id];
            && r.pacingKey == key && r.queuedAt == now
            && r.startedAt == StartedBy(cfg, q, clock, all, id) && (r.state.Active? <==> r.startedAt.Some?)
  {
    var all := [EnterEv(id, key, now)] + events;
    assert all[1..] == events && all[0] == EnterEv(id, key, now);
    EnteredAs(cfg, q, id, key, now);
    hide Step, Enabled;
    WaiterRecord(cfg, Step(cfg, q, all[0]), ClockAfter(clock, all[0]), events, id);
  }

  /** A grant ends the talk of reasons: until the next pause, whoever its pacing holds up is shown as
      waiting for the pacing. */
  lemma GrantClearsReason(cfg: Config, q: Queue, id: string, now: real, at: real, other: string, t: real)
    requires Waits(q, id) && Grants(q, cfg(q.requests[id].pacingKey), q.requests[id].pacingKey, now)
    requires other != id && Waits(q, other) && q.requests[other].pacingKey == q.requests[id].pacingKey
    ensures var key, q' := q.requests[id].pacingKey, Poll(q, cfg(q.requests[id].pacingKey), id, now, at);
            && SourceOf(q', key).waitReason == "" && q'.requests[id].waitReason == ""
            && (SourceOf(q', key).active < cfg(key).maxConcurrent && Earliest(q', cfg(key), key) > t ==>
                  var shown := Poll(q', cfg(key), other, t, t).requests[other];
                  shown.state == Waiting && shown.waitReason == "pacing")
  {
    assert "pacing" !in RATE_LIMIT_REASONS by {
      assert |"pacing"| == 6 && |"retry-after"| == 11 && |"token_quota"| == 11 && |"request_quota"| == 13;
      assert |"github_quota"| == 12 && |"rate_limit"| == 10;
    }
  }
}
