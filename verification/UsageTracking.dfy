/**
 The buffered usage counters of backend/tracking.py: recording, scheduled and direct flushes, and
 the requeue after a failed write.

 The critical sections under _API_USAGE_LOCK contain no await, so each is one step.  A flush holds
 _API_USAGE_WRITE_LOCK across awaits; other steps come in between.  A step of a run is one stretch
 of one coroutine between two awaits.
 */
module UsageTracking {
  import opened Options

  /** Service, day or hour, month. */
  type Key = (string, string, string)

  type Counts = map<Key, nat>

  type FlushId = nat

  /** Where a flush is: asleep before it starts, waiting for the write lock, writing its batch, done. */
  datatype Phase =
    | Sleeping
    | AwaitingWrite
    | Writing(batch: Counts, durable: bool)
    | Finished

  datatype Usage = Usage(
    pending: Counts,
    committed: Counts,
    flushes: map<FlushId, Phase>,
    flushTask: Option<FlushId>,
    writer: Option<FlushId>,
    nextId: FlushId)

  const START := Usage(map[], map[], map[], None, None, 0)

  function CountOf(c: Counts, key: Key): nat {
    if key in c then c[key] else 0
  }

  /** What both the upsert and the requeue do: add every count of the batch. */
  function AddAll(c: Counts, batch: Counts): Counts {
    map key | key in c.Keys + batch.Keys :: CountOf(c, key) + CountOf(batch, key)
  }

  /** No flush task, or one that is done. */
  predicate NeedsTask(u: Usage) {
    u.flushTask.None? || u.flushTask.value !in u.flushes || u.flushes[u.flushTask.value].Finished?
  }

  /** create_task, unless a flush is already on its way. */
  function EnsureTask(u: Usage): Usage {
    if NeedsTask(u) then
      u.(flushes := u.flushes[u.nextId := Sleeping], flushTask := Some(u.nextId), nextId := u.nextId + 1)
    else u
  }

  /** record_api_call, the buffered part. */
  function Record(u: Usage, key: Key, count: int): Usage {
    if count <= 0 then u
    else EnsureTask(u.(pending := u.pending[key := CountOf(u.pending, key) + count]))
  }

  /** A caller awaits flush_api_usage_pending itself. */
  function FlushDirectly(u: Usage): Usage {
    u.(flushes := u.flushes[u.nextId := AwaitingWrite], nextId := u.nextId + 1)
  }

  /** The scheduled flush wakes up. */
  function Wake(u: Usage, id: FlushId): Usage {
    u.(flushes := u.flushes[id := AwaitingWrite])
  }

  /** A flush gets the write lock and takes its snapshot; with nothing to write it is done. */
  function TakeSnapshot(u: Usage, id: FlushId): Usage {
    var batch := u.pending;
    if batch == map[] then
      u.(flushTask := None, flushes := u.flushes[id := Finished])
    else
      u.(pending := map[], flushTask := None, flushes := u.flushes[id := Writing(batch, false)], writer := Some(id))
  }

  /** The batch becomes durable in the database. */
  function CommitBatch(u: Usage, id: FlushId): Usage
    requires id in u.flushes && u.flushes[id].Writing?
  {
    var batch := u.flushes[id].batch;
    u.(committed := AddAll(u.committed, batch), flushes := u.flushes[id := Writing(batch, true)])
  }

  /** The write is over: without an error, or with one that puts the batch back into the buffer. */
  function EndWrite(u: Usage, id: FlushId, failed: bool): Usage
    requires id in u.flushes && u.flushes[id].Writing?
  {
    var requeued :=
      if failed then EnsureTask(u.(pending := AddAll(u.pending, u.flushes[id].batch))) else u;
    requeued.(flushes := requeued.flushes[id := Finished], writer := None)
  }

  // ---------------------------------------------------------------- runs

  datatype Event =
    | RecordEv(key: Key, count: int)
    | FlushEv
    | WakeEv(id: FlushId)
    | SnapshotEv(id: FlushId)
    | CommitEv(id: FlushId)
    | EndEv(id: FlushId, failed: bool)

  /** A write ends without an error only after its commit; an error may come before or after it. */
  predicate Enabled(u: Usage, e: Event) {
    match e
    case RecordEv(_, _) => true
    case FlushEv => true
    case WakeEv(id) => id in u.flushes && u.flushes[id].Sleeping?
    case SnapshotEv(id) => id in u.flushes && u.flushes[id].AwaitingWrite? && u.writer.None?
    case CommitEv(id) => id in u.flushes && u.flushes[id].Writing? && !u.flushes[id].durable
    case EndEv(id, failed) => id in u.flushes && u.flushes[id].Writing? && (failed || u.flushes[id].durable)
  }

  function Step(u: Usage, e: Event): Usage
    requires Enabled(u, e)
  {
    match e
    case RecordEv(key, count) => Record(u, key, count)
    case FlushEv => FlushDirectly(u)
    case WakeEv(id) => Wake(u, id)
    case SnapshotEv(id) => TakeSnapshot(u, id)
    case CommitEv(id) => CommitBatch(u, id)
    case EndEv(id, failed) => EndWrite(u, id, failed)
  }

  ghost predicate IsRun(u: Usage, events: seq<Event>)
    decreases |events|
  {
    events == [] || (Enabled(u, events[0]) && IsRun(Step(u, events[0]), events[1..]))
  }

  ghost function After(u: Usage, events: seq<Event>): Usage
    requires IsRun(u, events)
    decreases |events|
  {
    if events == [] then u else After(Step(u, events[0]), events[1..])
  }

  /** What a step records under a key. */
  function RecordedBy(e: Event, key: Key): nat {
    if e.RecordEv? && e.key == key && e.count > 0 then e.count else 0
  }

  function Recorded(events: seq<Event>, key: Key): nat {
    if events == [] then 0 else RecordedBy(events[0], key) + Recorded(events[1..], key)
  }

  /** What a step puts back although it had already been committed. */
  function PutBackBy(u: Usage, e: Event, key: Key): nat
    requires Enabled(u, e)
  {
    if e.EndEv? && e.failed && u.flushes[e.id].durable then CountOf(u.flushes[e.id].batch, key) else 0
  }

  ghost function CountedTwice(u: Usage, events: seq<Event>, key: Key): nat
    requires IsRun(u, events)
    decreases |events|
  {
    if events == [] then 0
    else PutBackBy(u, events[0], key) + CountedTwice(Step(u, events[0]), events[1..], key)
  }

  // ---------------------------------------------------------------- the invariant

  /** The count of a key in the batch that is being written and is not yet durable. */
  function InFlight(u: Usage, key: Key): nat {
    if u.writer.Some? && u.writer.value in u.flushes && u.flushes[u.writer.value].Writing? &&
       !u.flushes[u.writer.value].durable
    then CountOf(u.flushes[u.writer.value].batch, key)
    else 0
  }

  function Total(u: Usage, key: Key): nat {
    CountOf(u.committed, key) + CountOf(u.pending, key) + InFlight(u, key)
  }

  /** The flush that the task variable names has not taken its snapshot yet. */
  predicate FlushIsComing(u: Usage) {
    u.flushTask.Some? && u.flushTask.value in u.flushes &&
    (u.flushes[u.flushTask.value].Sleeping? || u.flushes[u.flushTask.value].AwaitingWrite?)
  }

  ghost predicate Consistent(u: Usage) {
    && (forall id | id in u.flushes :: id < u.nextId)
    && (forall id | id in u.flushes :: u.flushes[id].Writing? <==> u.writer == Some(id))
    && (u.writer.Some? ==> u.writer.value in u.flushes)
    && (u.flushTask.Some? ==> FlushIsComing(u))
    && (u.pending != map[] ==> FlushIsComing(u))
  }

  lemma EnsureTaskKeeps(u: Usage)
    requires forall id | id in u.flushes :: id < u.nextId
    requires forall id | id in u.flushes :: u.flushes[id].Writing? <==> u.writer == Some(id)
    requires u.writer.Some? ==> u.writer.value in u.flushes
    requires u.flushTask.Some? ==> FlushIsComing(u)
    ensures Consistent(EnsureTask(u)) && FlushIsComing(EnsureTask(u))
    ensures forall key :: Total(EnsureTask(u), key) == Total(u, key)
  {
  }

  lemma StepKeepsConsistent(u: Usage, e: Event)
    requires Consistent(u) && Enabled(u, e)
    ensures Consistent(Step(u, e))
  {
    match e
    case RecordEv(key, count) =>
      if count > 0 {
        EnsureTaskKeeps(u.(pending := u.pending[key := CountOf(u.pending, key) + count]));
      }
    case EndEv(id, failed) =>
      if failed {
        EnsureTaskKeeps(u.(pending := AddAll(u.pending, u.flushes[id].batch)));
      }
    case _ =>
  }

  lemma EndConserves(u: Usage, id: FlushId, failed: bool, key: Key)
    requires Consistent(u) && Enabled(u, EndEv(id, failed))
    ensures Total(EndWrite(u, id, failed), key) == Total(u, key) + PutBackBy(u, EndEv(id, failed), key)
  {
    if failed {
      EnsureTaskKeeps(u.(pending := AddAll(u.pending, u.flushes[id].batch)));
    }
  }

  lemma RecordConserves(u: Usage, k: Key, count: int, key: Key)
    requires Consistent(u)
    ensures Total(Record(u, k, count), key) == Total(u, key) + RecordedBy(RecordEv(k, count), key)
  {
    if count > 0 {
      EnsureTaskKeeps(u.(pending := u.pending[k := CountOf(u.pending, k) + count]));
    }
  }

  /** How one step moves the total of a key: only a record and a requeue after the commit add to it. */
  lemma StepConserves(u: Usage, e: Event, key: Key)
    requires Consistent(u) && Enabled(u, e)
    ensures Total(Step(u, e), key) == Total(u, key) + RecordedBy(e, key) + PutBackBy(u, e, key)
  {
    hide EndWrite, Record;
    match e
    case RecordEv(k, count) => RecordConserves(u, k, count, key);
    case EndEv(id, failed) => EndConserves(u, id, failed, key);
    case _ =>
  }

  lemma {:induction false} RunKeeps(u: Usage, events: seq<Event>, key: Key)
    requires Consistent(u) && IsRun(u, events)
    ensures Consistent(After(u, events))
    ensures Total(After(u, events), key) == Total(u, key) + Recorded(events, key) + CountedTwice(u, events, key)
    decreases |events|
  {
    if events != [] {
      StepKeepsConsistent(u, events[0]);
      StepConserves(u, events[0], key);
      RunKeeps(Step(u, events[0]), events[1..], key);
    }
  }

  // ---------------------------------------------------------------- main results

  /**
   Conservation.  In every interleaving of records, scheduled flushes, direct flushes and failed
   writes, what was recorded under a key is what is committed, pending or in flight, except that a
   batch whose write fails after its commit is counted again.
   */
  lemma UsageIsConserved(events: seq<Event>, key: Key)
    requires IsRun(START, events)
    ensures var u := After(START, events);
            CountOf(u.committed, key) + CountOf(u.pending, key) + InFlight(u, key)
            == Recorded(events, key) + CountedTwice(START, events, key)
  {
    RunKeeps(START, events, key);
  }

  /** No write of the run fails after its commit. */
  ghost predicate FailsBeforeCommit(u: Usage, events: seq<Event>)
    requires IsRun(u, events)
    decreases |events|
  {
    events == [] ||
    (!(events[0].EndEv? && events[0].failed && u.flushes[events[0].id].durable) &&
     FailsBeforeCommit(Step(u, events[0]), events[1..]))
  }

  lemma {:induction false} NothingTwice(u: Usage, events: seq<Event>, key: Key)
    requires IsRun(u, events) && FailsBeforeCommit(u, events)
    ensures CountedTwice(u, events, key) == 0
    decreases |events|
  {
    if events != [] {
      NothingTwice(Step(u, events[0]), events[1..], key);
    }
  }

  /** The count never falls below what was recorded, and is exact when no close fails after a commit. */
  lemma UsageNeverUndercounts(events: seq<Event>, key: Key)
    requires IsRun(START, events)
    ensures Total(After(START, events), key) >= Recorded(events, key)
    ensures FailsBeforeCommit(START, events) ==> Total(After(START, events), key) == Recorded(events, key)
  {
    UsageIsConserved(events, key);
    if FailsBeforeCommit(START, events) {
      NothingTwice(START, events, key);
    }
  }

  /**
   A flush is always coming: at every await, if anything is pending, the task variable names a
   flush that has not yet taken its snapshot.
   */
  lemma PendingHasFlush(events: seq<Event>)
    requires IsRun(START, events)
    ensures After(START, events).pending != map[] ==> FlushIsComing(After(START, events))
  {
    RunKeeps(START, events, ("", "", ""));
  }

  // ---------------------------------------------------------------- draining

  lemma {:induction false} RunThen(u: Usage, first: seq<Event>, more: seq<Event>)
    requires IsRun(u, first) && IsRun(After(u, first), more)
    ensures IsRun(u, first + more)
    ensures After(u, first + more) == After(After(u, first), more)
    decreases |first|
  {
    if first == [] {
      assert first + more == more;
    } else {
      assert (first + more)[1..] == first[1..] + more;
      RunThen(Step(u, first[0]), first[1..], more);
    }
  }

  lemma RunOne(u: Usage, e: Event)
    requires Enabled(u, e)
    ensures IsRun(u, [e]) && After(u, [e]) == Step(u, e)
  {
    assert [e][1..] == [];
  }

  /** Ends the write that is under way, if there is one. */
  lemma FinishWriter(u: Usage) returns (events: seq<Event>)
    requires Consistent(u)
    ensures IsRun(u, events) && |events| <= 2 && After(u, events).writer.None?
    ensures After(u, events).pending == u.pending && Consistent(After(u, events))
    ensures forall e | e in events :: e.CommitEv? || (e.EndEv? && !e.failed)
    ensures forall id | id in u.flushes && u.writer != Some(id) ::
              id in After(u, events).flushes && After(u, events).flushes[id] == u.flushes[id]
  {
    events := [];
    var v := u;
    if u.writer.Some? {
      var id := u.writer.value;
      if !u.flushes[id].durable {
        events := [CommitEv(id)];
        RunOne(u, events[0]);
        StepKeepsConsistent(u, events[0]);
        v := Step(u, events[0]);
      }
      var end := EndEv(id, false);
      StepKeepsConsistent(v, end);
      RunOne(v, end);
      RunThen(u, events, [end]);
      events := events + [end];
    }
  }

  /** The flush that is coming runs, and writes all that is pending. */
  lemma RunComingFlush(u: Usage) returns (events: seq<Event>)
    requires Consistent(u) && u.writer.None? && u.pending != map[]
    ensures IsRun(u, events) && |events| <= 4
    ensures After(u, events).pending == map[] && After(u, events).writer.None?
    ensures forall e | e in events :: !e.RecordEv? && !(e.EndEv? && e.failed)
  {
    var id, v := u.flushTask.value, u;
    events := [];
    if u.flushes[id].Sleeping? {
      events := [WakeEv(id)];
      RunOne(u, events[0]);
      StepKeepsConsistent(u, events[0]);
      v := Step(u, events[0]);
    }
    var w := Step(v, SnapshotEv(id));
    RunOne(v, SnapshotEv(id));
    RunThen(u, events, [SnapshotEv(id)]);
    StepKeepsConsistent(v, SnapshotEv(id));
    var rest := FinishWriter(w);
    RunThen(u, events + [SnapshotEv(id)], rest);
    events := events + [SnapshotEv(id)] + rest;
  }

  /**
   Nothing is ever stuck: from every state any run reaches, at most six further steps, none of them
   a new record or a failure, lead to a state with nothing pending and nothing in flight, in which
   exactly the total of each key is committed.
   */
  lemma CanAlwaysDrain(history: seq<Event>) returns (events: seq<Event>)
    requires IsRun(START, history)
    ensures |events| <= 6 && IsRun(After(START, history), events)
    ensures var u, v := After(START, history), After(After(START, history), events);
            v.pending == map[] && v.writer.None? && forall key :: CountOf(v.committed, key) == Total(u, key)
  {
    RunKeeps(START, history, ("", "", ""));
    var u := After(START, history);
    events := FinishWriter(u);
    var mid := After(u, events);
    if mid.pending != map[] {
      var more := RunComingFlush(mid);
      RunThen(u, events, more);
      events := events + more;
    }
    forall key ensures CountOf(After(u, events).committed, key) == Total(u, key) {
      DrainedCommitsTotal(u, events, key);
    }
  }

  lemma {:induction false} NoNewCounts(u: Usage, events: seq<Event>, key: Key)
    requires IsRun(u, events) && forall e | e in events :: !e.RecordEv? && !(e.EndEv? && e.failed)
    ensures Recorded(events, key) == 0 && CountedTwice(u, events, key) == 0
    decreases |events|
  {
    if events != [] {
      assert events[0] in events;
      NoNewCounts(Step(u, events[0]), events[1..], key);
    }
  }

  // ---------------------------------------------------------------- scheduled flushes

  lemma {:induction false} SleepsUntilWoken(u: Usage, events: seq<Event>, id: FlushId)
    requires Consistent(u) && IsRun(u, events) && id in u.flushes && u.flushes[id].Sleeping?
    requires WakeEv(id) !in events
    ensures SnapshotEv(id) !in events && id in After(u, events).flushes && After(u, events).flushes[id].Sleeping?
    decreases |events|
  {
    if events != [] {
      var v := Step(u, events[0]);
      StepKeepsConsistent(u, events[0]);
      assert events[0] in events;
      assert v.flushes[id].Sleeping?;
      hide Consistent, Step;
      SleepsUntilWoken(v, events[1..], id);
    }
  }

  /**
   Records are batched: the first one schedules a flush, which takes nothing before it wakes up; a
   record made while a flush is on its way schedules none.
   */
  lemma FlushWaitsForBatch(history: seq<Event>, key: Key, count: int, events: seq<Event>)
    requires IsRun(START, history) && count > 0
    requires IsRun(After(START, history), [RecordEv(key, count)] + events)
    ensures var u := After(START, history);
            var v := Step(u, RecordEv(key, count));
            && (u.flushTask.Some? ==> v.flushes == u.flushes && v.flushTask == u.flushTask)
            && (u.flushTask.None? ==>
                  && v.flushTask == Some(u.nextId) && v.flushes.Keys == u.flushes.Keys + {u.nextId}
                  && (WakeEv(u.nextId) !in events ==> SnapshotEv(u.nextId) !in events))
  {
    RunKeeps(START, history, key);
    var u, record := After(START, history), RecordEv(key, count);
    StepKeepsConsistent(u, record);
    assert ([record] + events)[1..] == events;
    if u.flushTask.None? && WakeEv(u.nextId) !in events {
      SleepsUntilWoken(Step(u, record), events, u.nextId);
    }
  }

  // ---------------------------------------------------------------- direct flushes

  /** A waiting flush takes its snapshot as soon as it can, and writes it. */
  lemma SnapshotAndWrite(w: Usage, id: FlushId) returns (events: seq<Event>)
    requires Consistent(w) && Enabled(w, SnapshotEv(id))
    ensures IsRun(w, events) && |events| <= 3
    ensures After(w, events).pending == map[] && After(w, events).writer.None?
    ensures forall e | e in events :: e.CommitEv? || (e.EndEv? && !e.failed) || e == SnapshotEv(id)
  {
    var snapshot := SnapshotEv(id);
    StepKeepsConsistent(w, snapshot);
    RunOne(w, snapshot);
    assert Step(w, snapshot).pending == map[];
    var last := FinishWriter(Step(w, snapshot));
    RunThen(w, [snapshot], last);
    events := [snapshot] + last;
  }

  /** A flush that waits for the write lock gets there once the write under way has ended. */
  lemma FinishAndWrite(v: Usage, id: FlushId) returns (events: seq<Event>)
    requires Consistent(v) && id in v.flushes && v.flushes[id].AwaitingWrite?
    ensures IsRun(v, events) && |events| <= 5
    ensures After(v, events).pending == map[] && After(v, events).writer.None?
    ensures forall e | e in events :: e.CommitEv? || (e.EndEv? && !e.failed) || e == SnapshotEv(id)
  {
    var first := FinishWriter(v);
    hide Consistent, Step;
    var rest := SnapshotAndWrite(After(v, first), id);
    RunThen(v, first, rest);
    events := first + rest;
  }

  /** A run without records and failures that ends with nothing pending or in flight commits it all. */
  lemma DrainedCommitsTotal(u: Usage, events: seq<Event>, key: Key)
    requires Consistent(u) && IsRun(u, events)
    requires forall e | e in events :: !e.RecordEv? && !(e.EndEv? && e.failed)
    requires After(u, events).pending == map[] && After(u, events).writer.None?
    ensures CountOf(After(u, events).committed, key) == Total(u, key)
  {
    RunKeeps(u, events, key);
    NoNewCounts(u, events, key);
  }

  /**
   A direct flush gets there without any scheduled one: from every state any run reaches, starting
   one and then only ending the write under way, its own snapshot, and its own write, leaves nothing
   pending or in flight, and exactly the total of each key committed.
   */
  lemma DirectFlushDrains(history: seq<Event>) returns (events: seq<Event>)
    requires IsRun(START, history)
    ensures var u := After(START, history);
            && IsRun(u, [FlushEv] + events) && |events| <= 5
            && (forall e | e in events :: e.CommitEv? || (e.EndEv? && !e.failed) || e == SnapshotEv(u.nextId))
            && var v := After(u, [FlushEv] + events);
               v.pending == map[] && v.writer.None? && forall key :: CountOf(v.committed, key) == Total(u, key)
  {
    RunKeeps(START, history, ("", "", ""));
    var u := After(START, history);
    var v := Step(u, FlushEv);
    StepKeepsConsistent(u, FlushEv);
    RunOne(u, FlushEv);
    assert v.flushes[u.nextId].AwaitingWrite?;
    hide Consistent, Step, Total;
    events := FinishAndWrite(v, u.nextId);
    RunThen(u, [FlushEv], events);
    forall key ensures CountOf(After(u, [FlushEv] + events).committed, key) == Total(u, key) {
      DrainedCommitsTotal(u, [FlushEv] + events, key);
    }
  }

  /** What a direct flush still owes: a total that is counted, in its batch, or committed. */
  ghost predicate Owes(u: Usage, id: FlushId, key: Key, total: nat) {
    id in u.flushes &&
    match u.flushes[id]
    case Sleeping => false
    case AwaitingWrite => Total(u, key) >= total
    case Writing(batch, durable) => CountOf(u.committed, key) + (if durable then 0 else CountOf(batch, key)) >= total
    case Finished => CountOf(u.committed, key) >= total
  }

  lemma StepKeepsOwed(u: Usage, e: Event, id: FlushId, key: Key, total: nat)
    requires Consistent(u) && Enabled(u, e) && Owes(u, id, key, total) && e != EndEv(id, true)
    ensures Owes(Step(u, e), id, key, total)
  {
    StepConserves(u, e, key);
    assert u.flushes[id].Writing? <==> u.writer == Some(id);
  }

  lemma {:induction false} RunKeepsOwed(u: Usage, events: seq<Event>, id: FlushId, key: Key, total: nat)
    requires Consistent(u) && IsRun(u, events) && Owes(u, id, key, total) && EndEv(id, true) !in events
    ensures Owes(After(u, events), id, key, total)
    decreases |events|
  {
    if events != [] {
      StepKeepsConsistent(u, events[0]);
      StepKeepsOwed(u, events[0], id, key, total);
      hide Owes, Consistent, Step, Enabled;
      RunKeepsOwed(Step(u, events[0]), events[1..], id, key, total);
    }
  }

  /**
   A direct flush is worth awaiting: whatever other flushes, records and failures come in between,
   once it has returned without a failure of its own write, everything that was recorded before it
   started is committed.
   */
  lemma DirectFlushCommits(history: seq<Event>, events: seq<Event>, key: Key)
    requires IsRun(START, history) && IsRun(After(START, history), [FlushEv] + events)
    requires EndEv(After(START, history).nextId, true) !in events
    ensures var u := After(START, history);
            var v := After(u, [FlushEv] + events);
            && u.nextId in v.flushes
            && (v.flushes[u.nextId].Finished? ==> CountOf(v.committed, key) >= Recorded(history, key))
  {
    RunKeeps(START, history, key);
    var u := After(START, history);
    var v := Step(u, FlushEv);
    StepKeepsConsistent(u, FlushEv);
    assert ([FlushEv] + events)[1..] == events;
    UsageNeverUndercounts(history, key);
    RunKeepsOwed(v, events, u.nextId, key, Recorded(history, key));
  }
}
