/** The module state of backend/tracking.py, updated in place, one method for each step. */
module UsageTracker {
  import opened Options
  import opened UsageTracking

  class Tracker {
    var pending: Counts
    var committed: Counts
    var flushes: map<FlushId, Phase>
    var flushTask: Option<FlushId>
    var writer: Option<FlushId>
    var nextId: FlushId

    constructor ()
      ensures Model() == START
    {
      pending, committed, flushes, flushTask, writer, nextId := map[], map[], map[], None, None, 0;
    }

    ghost function Model(): Usage
      reads this
    {
      Usage(pending, committed, flushes, flushTask, writer, nextId)
    }

    /** create_task(_schedule_api_usage_flush()), if no flush is on its way. */
    method ScheduleFlush()
      modifies this
      ensures Model() == EnsureTask(old(Model()))
    {
      if flushTask.None? || flushTask.value !in flushes || flushes[flushTask.value].Finished? {
        flushes := flushes[nextId := Sleeping];
        flushTask := Some(nextId);
        nextId := nextId + 1;
      }
    }

    /** record_api_call up to the end of its critical section. */
    method RecordApiCall(key: Key, count: int)
      modifies this
      ensures Model() == Record(old(Model()), key, count)
    {
      if count <= 0 {
        return;
      }
      pending := pending[key := (if key in pending then pending[key] else 0) + count];
      ScheduleFlush();
    }

    /** A caller awaits flush_api_usage_pending. */
    method FlushApiUsagePending() returns (id: FlushId)
      modifies this
      ensures Model() == FlushDirectly(old(Model())) && id == old(nextId)
      ensures flushes == old(flushes)[id := AwaitingWrite]
      ensures unchanged(`pending) && unchanged(`committed) && unchanged(`flushTask) && unchanged(`writer)
    {
      id := nextId;
      flushes := flushes[id := AwaitingWrite];
      nextId := nextId + 1;
    }

    method WakeFlush(id: FlushId)
      requires Enabled(Model(), WakeEv(id))
      modifies this
      ensures Model() == Wake(old(Model()), id)
    {
      flushes := flushes[id := AwaitingWrite];
    }

    /** The flush holds the write lock and swaps the buffer out. */
    method Snapshot(id: FlushId)
      requires Enabled(Model(), SnapshotEv(id))
      modifies this
      ensures Model() == TakeSnapshot(old(Model()), id)
    {
      var batch := pending;
      pending := map[];
      flushTask := None;
      if batch == map[] {
        flushes := flushes[id := Finished];
        return;
      }
      flushes := flushes[id := Writing(batch, false)];
      writer := Some(id);
    }

    /** The upserts of one transaction, and its commit. */
    method Commit(id: FlushId)
      requires Enabled(Model(), CommitEv(id))
      modifies this
      ensures Model() == CommitBatch(old(Model()), id)
    {
      var batch := flushes[id].batch;
      committed := AddEach(committed, batch);
      flushes := flushes[id := Writing(batch, true)];
    }

    /** The end of the write lock: after an error the batch goes back into the buffer. */
    method EndFlush(id: FlushId, failed: bool)
      requires Enabled(Model(), EndEv(id, failed))
      modifies this
      ensures Model() == EndWrite(old(Model()), id, failed)
    {
      if failed {
        pending := AddEach(pending, flushes[id].batch);
        ScheduleFlush();
      }
      flushes := flushes[id := Finished];
      writer := None;
    }
  }

  lemma AddOneMore(table: Counts, done: Counts, key: Key, count: nat)
    requires key !in done
    ensures AddAll(table, done[key := count]) == AddAll(table, done)[key := CountOf(table, key) + count]
    ensures CountOf(AddAll(table, done), key) == CountOf(table, key)
  {
  }

  lemma AddNothing(table: Counts)
    ensures AddAll(table, map[]) == table
  {
  }

  /** Adds the counts of a batch to a table, one key after the other. */
  method AddEach(table: Counts, batch: Counts) returns (sum: Counts)
    ensures sum == AddAll(table, batch)
  {
    hide AddAll;
    sum := table;
    var todo := batch.Keys;
    ghost var done: Counts := map[];
    AddNothing(table);
    while todo != {}
      invariant todo <= batch.Keys && done.Keys == batch.Keys - todo
      invariant forall key | key in done :: done[key] == batch[key]
      invariant sum == AddAll(table, done)
      decreases |todo|
    {
      var key :| key in todo;
      AddOneMore(table, done, key, batch[key]);
      sum := sum[key := CountOf(sum, key) + batch[key]];
      done := done[key := batch[key]];
      todo := todo - {key};
    }
    assert done == batch;
  }
}
