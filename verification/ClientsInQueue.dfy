/**
 Any number of resilient clients (backend/resilient_client.py) in one queue (backend/api_queue.py).

 The accounting of the queue assumes that a caller releases only ids it was handed.  Here that is
 proved of the clients: whatever they and the queue interleave, each of their releases is a step
 that the queue allows.
 */
module ClientsInQueue {
  import opened Options
  import opened ApiQueue
  import opened ApiQueueAccounting
  import Client = ResilientClient

  /** A grant or a release of one of the clients, or any other step of the queue. */
  datatype Move =
    | Other(e: Event)
    | Granted(client: nat, id: string, now: real, at: real)
    | Releases(client: nat, id: string)

  /** The pacing key of each client. */
  type Keys = nat -> string

  /** The ids that the clients hold. */
  type Holdings = map<nat, string>

  function QueueEvent(keys: Keys, m: Move): Event {
    match m
    case Other(e) => e
    case Granted(_, id, now, at) => PollEv(id, now, at)
    case Releases(c, id) => ReleaseEv(keys(c), id)
  }

  function QueueEvents(keys: Keys, moves: seq<Move>): seq<Event> {
    if moves == [] then [] else [QueueEvent(keys, moves[0])] + QueueEvents(keys, moves[1..])
  }

  /** What one client sees of the moves. */
  function Seen(c: nat, moves: seq<Move>): seq<Client.Event> {
    if moves == [] then []
    else
      match moves[0]
      case Granted(d, id, _, _) => if d == c then [Client.Acquired(id)] + Seen(c, moves[1..]) else Seen(c, moves[1..])
      case Releases(d, id) => if d == c then [Client.Released(id)] + Seen(c, moves[1..]) else Seen(c, moves[1..])
      case Other(_) => Seen(c, moves[1..])
  }

  /**
   The queue does its part: other steps are allowed, a grant is a grant, ids are drawn at random and
   so are not those that somebody holds, and the clock does not go back.  Nothing is assumed of the
   releases.
   */
  ghost predicate QueueFits(cfg: Config, keys: Keys, q: Queue, clock: real, held: Holdings, moves: seq<Move>)
    decreases |moves|
  {
    moves == [] ||
    match moves[0]
    case Other(e) =>
      && Enabled(q, e) && Timely(clock, e) && (e.EnterEv? ==> e.id !in held.Values)
      && QueueFits(cfg, keys, Step(cfg, q, e), ClockAfter(clock, e), held, moves[1..])
    case Granted(c, id, now, at) =>
      && Waits(q, id) && q.requests[id].pacingKey == keys(c) && clock <= now <= at
      && Grants(q, cfg(keys(c)), keys(c), now)
      && QueueFits(cfg, keys, Poll(q, cfg(keys(c)), id, now, at), at, held[c := id], moves[1..])
    case Releases(c, id) =>
      QueueFits(cfg, keys, Release(q, keys(c), id), clock, held - {c}, moves[1..])
  }

  /** Acquisitions and releases take turns, and each release is of the id acquired. */
  predicate Alternates(held: Option<string>, events: seq<Client.Event>)
    decreases |events|
  {
    events == [] ||
    match events[0]
    case Acquired(id) => held.None? && Alternates(Some(id), events[1..])
    case Released(id) => held == Some(id) && Alternates(None, events[1..])
    case _ => false
  }

  function HeldBy(held: Holdings, c: nat): Option<string> {
    if c in held then Some(held[c]) else None
  }

  /** An id that its holder may release: active for the key, or gone. */
  predicate Releasable(q: Queue, key: string, id: string) {
    id in q.requests ==> IsActive(q, id) && q.requests[id].pacingKey == key
  }

  ghost predicate AllReleasable(keys: Keys, q: Queue, held: Holdings) {
    forall c | c in held :: Releasable(q, keys(c), held[c])
  }

  /** No step makes a held id anything else, as long as it does not enter the queue again. */
  lemma StepKeepsReleasable(cfg: Config, q: Queue, e: Event, key: string, id: string)
    requires Enabled(q, e) && Releasable(q, key, id) && !(e.EnterEv? && e.id == id)
    ensures Releasable(Step(cfg, q, e), key, id)
  {
  }

  /** The steps of any interleaving of clients that keep the discipline are a run of the queue. */
  lemma {:induction false} MovesAreARun(cfg: Config, keys: Keys, q: Queue, clock: real, held: Holdings,
                                        moves: seq<Move>)
    requires QueueFits(cfg, keys, q, clock, held, moves) && AllReleasable(keys, q, held)
    requires forall c: nat :: Alternates(HeldBy(held, c), Seen(c, moves))
    ensures IsRun(cfg, q, clock, QueueEvents(keys, moves))
    decreases |moves|
  {
    if moves != [] {
      var m, rest, e := moves[0], moves[1..], QueueEvent(keys, moves[0]);
      var held' := match m
        case Other(_) => held
        case Granted(c, id, _, _) => held[c := id]
        case Releases(c, _) => held - {c};
      assert e.EnterEv? ==> e.id !in held.Values;
      forall c: nat ensures Alternates(HeldBy(held', c), Seen(c, rest)) {
        assert Alternates(HeldBy(held, c), Seen(c, moves));
      }
      if m.Releases? {
        assert Alternates(HeldBy(held, m.client), Seen(m.client, moves));
        assert m.client in held && held[m.client] == m.id;
      }
      assert Enabled(q, e);
      forall c | c in held' ensures Releasable(Step(cfg, q, e), keys(c), held'[c]) {
        if c in held && held'[c] == held[c] {
          assert held[c] in held.Values;
          StepKeepsReleasable(cfg, q, e, keys(c), held[c]);
        }
      }
      hide Alternates, Seen, Releasable, Enabled;
      MovesAreARun(cfg, keys, Step(cfg, q, e), ClockAfter(clock, e), held', rest);
      assert QueueEvents(keys, moves)[1..] == QueueEvents(keys, rest);
    }
  }

  // ---------------------------------------------------------------- what a client's trace gives

  /** The acquisitions and releases of a trace. */
  function SlotEvents(trace: seq<Client.Event>): seq<Client.Event> {
    if trace == [] then []
    else if trace[0].Acquired? || trace[0].Released? then [trace[0]] + SlotEvents(trace[1..])
    else SlotEvents(trace[1..])
  }

  function IdHeld(h: Client.Holding): Option<string> {
    if h.Held? then Some(h.id) else None
  }

  lemma {:induction false} BrokenStays(retries: int, trace: seq<Client.Event>)
    ensures Client.AdvanceAll(retries, Client.Broken, trace) == Client.Broken
    decreases |trace|
  {
    if trace != [] {
      BrokenStays(retries, trace[..|trace| - 1]);
    }
  }

  lemma {:induction false} DisciplineAlternates(retries: int, h: Client.Holding, trace: seq<Client.Event>)
    requires h != Client.Broken && Client.AdvanceAll(retries, h, trace) != Client.Broken
    ensures Alternates(IdHeld(h), SlotEvents(trace))
    decreases |trace|
  {
    if trace != [] {
      var h' := Client.Advance(retries, h, trace[0]);
      assert trace == [trace[0]] + trace[1..];
      Client.AdvanceAppend(retries, h, [trace[0]], trace[1..]);
      Client.AdvanceOne(retries, h, trace[0]);
      BrokenStays(retries, trace[1..]);
      DisciplineAlternates(retries, h', trace[1..]);
      hide Client.AdvanceAll;
      if trace[0].Acquired? || trace[0].Released? {
        assert SlotEvents(trace)[1..] == SlotEvents(trace[1..]);
      }
    }
  }

  lemma {:induction false} PrefixAlternates(held: Option<string>, prefix: seq<Client.Event>, events: seq<Client.Event>)
    requires prefix <= events && Alternates(held, events)
    ensures Alternates(held, prefix)
    decreases |prefix|
  {
    if prefix != [] {
      var id := events[0].id;
      PrefixAlternates(if events[0].Acquired? then Some(id) else None, prefix[1..], events[1..]);
    }
  }

  /** Each client has come some way with its request. */
  ghost predicate ClientsRun(flags: nat -> Client.Flags, rounds: nat -> seq<Client.Round>, moves: seq<Move>) {
    forall c: nat :: Seen(c, moves) <= SlotEvents(Client.RequestRun(flags(c), rounds(c), []).1)
  }

  /**
   Any number of requests, each somewhere in any run of its own, interleaved in any way with one
   another and with the other steps of the queue: the whole is a run of the queue, so the books are
   in order after it.  No client ever releases a slot in a way that breaks them.
   */
  lemma ClientsKeepTheBooks(cfg: Config, keys: Keys, q: Queue, clock: real, moves: seq<Move>,
                            flags: nat -> Client.Flags, rounds: nat -> seq<Client.Round>)
    requires Accounted(cfg, q) && QueueFits(cfg, keys, q, clock, map[], moves) && ClientsRun(flags, rounds, moves)
    ensures IsRun(cfg, q, clock, QueueEvents(keys, moves))
    ensures Accounted(cfg, After(cfg, q, clock, QueueEvents(keys, moves)))
  {
    hide Accounted, QueueFits, Client.RequestRun, SlotEvents, Seen, Alternates;
    forall c: nat ensures Alternates(HeldBy(map[], c), Seen(c, moves)) {
      var trace := Client.RequestRun(flags(c), rounds(c), []).1;
      Client.RequestKeepsDiscipline(flags(c), rounds(c), []);
      DisciplineAlternates(flags(c).retries, Client.Free, trace);
      PrefixAlternates(None, Seen(c, moves), SlotEvents(trace));
    }
    MovesAreARun(cfg, keys, q, clock, map[], moves);
    RunKeepsAccounts(cfg, q, clock, QueueEvents(keys, moves));
  }
}
