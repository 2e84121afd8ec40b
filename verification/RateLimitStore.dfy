/**
 The shared limiter of backend/rate_limit_store.py: every bucket of every limiter is one row of a
 key-value table that is never pruned.  Calls are sequential; load and save are one step.
 */
module RateLimitStore {
  import opened Options
  import opened TokenHistory
  import TokenBucket

  /** A stored row; a field that the row lacks takes its default on load. */
  datatype Row = Row(tokens: Option<real>, last: Option<real>, hits: Option<int>)

  type Table = map<string, Row>

  const STORE_PREFIX := "rate_limit:"

  function StateKey(bucketName: string, clientKey: string): string {
    STORE_PREFIX + bucketName + ":" + clientKey
  }

  function RowOf(table: Table, key: string): Row {
    if key in table then table[key] else Row(None, None, None)
  }

  /** The bucket that a row holds for a call at now. */
  function Loaded(rate: Rate, row: Row, now: real): Bucket {
    Bucket(row.tokens.GetOr(Capacity(rate)), row.last.GetOr(now))
  }

  /** The table after one call for the row of the key. */
  function StepTable(rate: Rate, table: Table, key: string, now: real): Table {
    table[key := Row(Some(TakeToken(rate, Some(Loaded(rate, RowOf(table, key), now)), now).tokens), Some(now),
                     Some(RowOf(table, key).hits.GetOr(0) + 1))]
  }

  class SharedStore {
    var table: Table

    constructor ()
      ensures table == map[]
    {
      table := map[];
    }

    method SharedAcquire(bucketName: string, clientKey: string, ratePerMinute: int, now: real)
      returns (retryAfter: real)
      modifies this
      ensures var rate: Rate := if ratePerMinute >= 1 then ratePerMinute else 1;
              var key := StateKey(bucketName, clientKey);
              && retryAfter == Answer(rate, Some(Loaded(rate, RowOf(old(table), key), now)), now)
              && table == StepTable(rate, old(table), key, now)
    {
      var rate: Rate := if ratePerMinute >= 1 then ratePerMinute else 1;
      var stateKey := StateKey(bucketName, clientKey);
      var stored := RowOf(table, stateKey);
      var tokens := stored.tokens.GetOr(Capacity(rate));
      var last := stored.last.GetOr(now);
      var hits := stored.hits.GetOr(0) + 1;
      tokens := Min(Capacity(rate), tokens + Refill(rate, now - last));
      if tokens >= 1.0 {
        tokens := tokens - 1.0;
        table := table[stateKey := Row(Some(tokens), Some(now), Some(hits))];
        return 0.0;
      }
      table := table[stateKey := Row(Some(tokens), Some(now), Some(hits))];
      return (1.0 - tokens) / RefillPerSecond(rate);
    }
  }

  // ---------------------------------------------------------------- one table for all limiters

  lemma FirstColon(a: string, b: string)
    requires ':' !in a
    ensures (a + ":" + b)[|a|] == ':' && forall i | 0 <= i < |a| :: (a + ":" + b)[i] != ':'
  {
  }

  lemma SplitAtColon(a: string, b: string, a': string, b': string)
    requires ':' !in a && ':' !in a' && a + ":" + b == a' + ":" + b'
    ensures a == a' && b == b'
  {
    var s, s' := a + ":" + b, a' + ":" + b';
    FirstColon(a, b);
    FirstColon(a', b');
    assert |a| == |a'|;
    assert a == s[..|a|] && a' == s'[..|a'|];
    assert b == s[|a| + 1..] && b' == s'[|a'| + 1..];
  }

  /**
   As long as no limiter's name holds a colon, different clients and different limiters never share
   a row, whatever the client keys are.
   */
  lemma StateKeysDiffer(name: string, client: string, name': string, client': string)
    requires ':' !in name && ':' !in name'
    ensures StateKey(name, client) == StateKey(name', client') <==> name == name' && client == client'
  {
    if StateKey(name, client) == StateKey(name', client') {
      var s, s' := StateKey(name, client), StateKey(name', client');
      assert s[|STORE_PREFIX|..] == name + ":" + client;
      assert s'[|STORE_PREFIX|..] == name' + ":" + client';
      SplitAtColon(name, client, name', client');
    }
  }

  /** With a colon in a name they can: the condition is needed. */
  lemma ColonInNameCollides()
    ensures StateKey("a", "b:c") == StateKey("a:b", "c")
  {
    calc {
      StateKey("a", "b:c");
      "rate_limit:a:b:c";
      StateKey("a:b", "c");
    }
  }

  // ---------------------------------------------------------------- whole runs

  datatype Made = Made(name: string, client: string, now: real, answer: real)

  /** A sequence of calls to limiters with the given rates, each answered from the table before it. */
  ghost predicate IsRun(rates: string -> Rate, table: Table, clock: real, calls: seq<Made>)
    decreases |calls|
  {
    calls == [] ||
    var c := calls[0];
    var rate, key := rates(c.name), StateKey(c.name, c.client);
    clock <= c.now && ':' !in c.name &&
    c.answer == Answer(rate, Some(Loaded(rate, RowOf(table, key), c.now)), c.now) &&
    IsRun(rates, StepTable(rate, table, key, c.now), c.now, calls[1..])
  }

  function TimesOf(calls: seq<Made>, name: string, client: string): seq<real> {
    if calls == [] then []
    else (if calls[0].name == name && calls[0].client == client then [calls[0].now] else []) +
         TimesOf(calls[1..], name, client)
  }

  function AnswersOf(calls: seq<Made>, name: string, client: string): seq<real> {
    if calls == [] then []
    else (if calls[0].name == name && calls[0].client == client then [calls[0].answer] else []) +
         AnswersOf(calls[1..], name, client)
  }

  /** The row of a key holds its history's bucket. */
  ghost predicate Holds(table: Table, key: string, b: Option<Bucket>) {
    match b
    case None => key !in table
    case Some(v) => key in table && table[key].tokens == Some(v.tokens) && table[key].last == Some(v.last)
  }

  lemma {:induction false} StoreRun(rates: string -> Rate, table: Table, clock: real, calls: seq<Made>,
                                    name: string, client: string, b: Option<Bucket>)
    requires IsRun(rates, table, clock, calls) && ':' !in name && Holds(table, StateKey(name, client), b)
    ensures AnswersOf(calls, name, client) == Answers(rates(name), b, TimesOf(calls, name, client))
    decreases |calls|
  {
    if calls != [] {
      var c := calls[0];
      var rate := rates(c.name);
      var table' := StepTable(rate, table, StateKey(c.name, c.client), c.now);
      StateKeysDiffer(c.name, c.client, name, client);
      if c.name == name && c.client == client {
        var row := RowOf(table, StateKey(name, client));
        assert Loaded(rate, row, c.now) == Current(rate, b, c.now);
        assert TakeToken(rate, Some(Loaded(rate, row, c.now)), c.now) == TakeToken(rate, b, c.now);
        StoreRun(rates, table', c.now, calls[1..], name, client, Some(TakeToken(rate, b, c.now)));
        assert TimesOf(calls, name, client)[1..] == TimesOf(calls[1..], name, client);
      } else {
        StoreRun(rates, table', c.now, calls[1..], name, client, b);
        assert TimesOf(calls, name, client) == TimesOf(calls[1..], name, client);
        assert AnswersOf(calls, name, client) == AnswersOf(calls[1..], name, client);
      }
    }
  }

  ghost function TableAfter(rates: string -> Rate, table: Table, calls: seq<Made>): Table
    decreases |calls|
  {
    if calls == [] then table
    else
      var c := calls[0];
      TableAfter(rates, StepTable(rates(c.name), table, StateKey(c.name, c.client), c.now), calls[1..])
  }

  /** Each row counts the calls of its client to its limiter, granted or not. */
  lemma {:induction false} StoreCountsCalls(rates: string -> Rate, table: Table, clock: real, calls: seq<Made>,
                                            name: string, client: string)
    requires IsRun(rates, table, clock, calls) && ':' !in name
    ensures RowOf(TableAfter(rates, table, calls), StateKey(name, client)).hits.GetOr(0) ==
            RowOf(table, StateKey(name, client)).hits.GetOr(0) + |TimesOf(calls, name, client)|
    decreases |calls|
  {
    if calls != [] {
      var c := calls[0];
      StateKeysDiffer(c.name, c.client, name, client);
      StoreCountsCalls(rates, StepTable(rates(c.name), table, StateKey(c.name, c.client), c.now), c.now, calls[1..],
                       name, client);
      hide TakeToken, StateKey;
    }
  }

  /**
   The two limiters agree.  A client's calls to a limiter, made at the same times, get the same
   answers from the shared table, amid any calls to any other limiters, as from the pruned
   in-memory buckets amid any other clients, unless memory flood-evicts the client.
   */
  lemma SharedStoreAgrees(rates: string -> Rate, clock: real, calls: seq<Made>, name: string, client: string,
                          clock': real, memory: seq<TokenBucket.Made>)
    requires IsRun(rates, map[], clock, calls) && ':' !in name
    requires TokenBucket.IsRun(rates(name), map[], clock', memory)
    requires TokenBucket.Spared(rates(name), map[], memory, client)
    requires TimesOf(calls, name, client) == TokenBucket.TimesOf(memory, client)
    ensures AnswersOf(calls, name, client) == TokenBucket.AnswersOf(memory, client)
  {
    StoreRun(rates, map[], clock, calls, name, client, None);
    TokenBucket.PruningIsInvisible(rates(name), clock', memory, client);
  }
}
