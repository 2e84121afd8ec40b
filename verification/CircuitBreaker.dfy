/** The per-source health registry and circuit breaker of backend/resilient_client.py. */
module CircuitBreaker {
  import opened Options

  datatype Health = Health(
    lastSuccess: Option<real>,
    lastFailure: Option<real>,
    lastError: Option<string>,
    consecutiveFailures: nat,
    circuitOpenUntil: real)

  const FRESH := Health(None, None, None, 0, 0.0)

  const MAX_ERROR_LENGTH := 300

  /** CIRCUIT_FAILURE_THRESHOLD and CIRCUIT_COOLDOWN_SECONDS. */
  datatype Settings = Settings(threshold: int, cooldown: real)

  /** A failure reads the clock twice: when it is recorded, and when it opens the circuit. */
  datatype Event =
    | Success(at: real)
    | Failure(error: string, cooldown: Option<real>, failedAt: real, openedAt: real)
    | Reset

  function Truncated(error: string): string {
    if |error| <= MAX_ERROR_LENGTH then error else error[..MAX_ERROR_LENGTH]
  }

  function OpenUntil(settings: Settings, e: Event): real
    requires e.Failure?
  {
    e.openedAt + e.cooldown.GetOr(settings.cooldown)
  }

  function Apply(settings: Settings, h: Health, e: Event): Health {
    match e
    case Success(at) =>
      h.(lastSuccess := Some(at), consecutiveFailures := 0, circuitOpenUntil := 0.0, lastError := None)
    case Failure(error, _, failedAt, _) =>
      var n := h.consecutiveFailures + 1;
      h.(lastFailure := Some(failedAt), lastError := Some(Truncated(error)), consecutiveFailures := n,
         circuitOpenUntil := if n >= settings.threshold then OpenUntil(settings, e) else h.circuitOpenUntil)
    case Reset =>
      h.(consecutiveFailures := 0, circuitOpenUntil := 0.0, lastError := None)
  }

  /** is_circuit_open. */
  predicate IsOpen(h: Health, now: real) {
    h.circuitOpenUntil != 0.0 && now < h.circuitOpenUntil
  }

  // ---------------------------------------------------------------- the registry

  class Registry {
    const settings: Settings
    var health: map<string, Health>

    constructor (settings: Settings)
      ensures health == map[] && this.settings == settings
    {
      this.settings := settings;
      health := map[];
    }

    /** The health of a source; a source that is not registered yet has a fresh one. */
    function HealthOf(source: string): Health
      reads this
    {
      if source in health then health[source] else FRESH
    }

    method RecordSuccess(source: string, now: real)
      modifies this
      ensures health == old(health)[source := Apply(settings, old(HealthOf(source)), Success(now))]
    {
      var state := HealthOf(source);
      state := state.(lastSuccess := Some(now));
      state := state.(consecutiveFailures := 0);
      state := state.(circuitOpenUntil := 0.0);
      health := health[source := state.(lastError := None)];
    }

    method RecordFailure(source: string, error: string, cooldownSeconds: Option<real>, failedAt: real, openedAt: real)
      modifies this
      ensures health == old(health)[source := Apply(settings, old(HealthOf(source)),
                                                    Failure(error, cooldownSeconds, failedAt, openedAt))]
    {
      var state := HealthOf(source);
      state := state.(lastFailure := Some(failedAt), lastError := Some(Truncated(error)));
      state := state.(consecutiveFailures := state.consecutiveFailures + 1);
      if state.consecutiveFailures >= settings.threshold {
        var cooldown := if cooldownSeconds.Some? then cooldownSeconds.value else settings.cooldown;
        state := state.(circuitOpenUntil := openedAt + cooldown);
      }
      health := health[source := state];
    }

    /** reset_circuit: an unknown source is an error and changes nothing. */
    method ResetCircuit(source: string) returns (r: Result<(), string>)
      modifies this
      ensures r.Ok? <==> source in old(health)
      ensures r.Ok? ==> health == old(health)[source := Apply(settings, old(HealthOf(source)), Reset)]
      ensures r.Err? ==> health == old(health) && r.error == source
    {
      if source !in health {
        return Err(source);
      }
      var state := health[source];
      health := health[source := state.(circuitOpenUntil := 0.0, consecutiveFailures := 0, lastError := None)];
      return Ok(());
    }
  }

  // ---------------------------------------------------------------- history

  function After(settings: Settings, events: seq<Event>): Health {
    if events == [] then FRESH
    else Apply(settings, After(settings, events[..|events| - 1]), events[|events| - 1])
  }

  /** The failures since the last success or reset. */
  function FailuresSince(events: seq<Event>): nat {
    if events == [] || !events[|events| - 1].Failure? then 0
    else 1 + FailuresSince(events[..|events| - 1])
  }

  predicate Tripped(settings: Settings, events: seq<Event>) {
    FailuresSince(events) >= 1 && FailuresSince(events) >= settings.threshold
  }

  /**
   The breaker is a function of its history, for any threshold: the counter is the number of
   failures since the last success or reset; and unless that number has reached the threshold the
   circuit is closed, otherwise it is open until the latest failure's time plus its cooldown.
   */
  lemma {:induction false} BreakerIsHistory(settings: Settings, events: seq<Event>)
    ensures var h := After(settings, events);
            && h.consecutiveFailures == FailuresSince(events)
            && h.circuitOpenUntil ==
                 (if Tripped(settings, events) then
                    var latest := events[|events| - 1];
                    latest.openedAt + (if latest.cooldown.Some? then latest.cooldown.value else settings.cooldown)
                  else 0.0)
  {
    if events != [] {
      BreakerIsHistory(settings, events[..|events| - 1]);
    }
  }

  predicate LatestSuccess(events: seq<Event>, i: nat) {
    i < |events| && events[i].Success? && forall j | i < j < |events| :: !events[j].Success?
  }

  predicate LatestFailure(events: seq<Event>, i: nat) {
    i < |events| && events[i].Failure? && forall j | i < j < |events| :: !events[j].Failure?
  }

  lemma {:induction false} ShowsLatestSuccess(settings: Settings, events: seq<Event>)
    ensures var shown := After(settings, events).lastSuccess;
            && (shown.None? <==> forall i | 0 <= i < |events| :: !events[i].Success?)
            && forall i: nat | LatestSuccess(events, i) :: shown == Some(events[i].at)
  {
    hide Truncated, OpenUntil;
    if events != [] {
      var n := |events| - 1;
      ShowsLatestSuccess(settings, events[..n]);
      assert forall i | 0 <= i < n :: events[..n][i] == events[i];
      forall i: nat | LatestSuccess(events, i) && i < n ensures LatestSuccess(events[..n], i) {
      }
    }
  }

  lemma {:induction false} ShowsLatestFailure(settings: Settings, events: seq<Event>)
    ensures var shown := After(settings, events).lastFailure;
            && (shown.None? <==> forall i | 0 <= i < |events| :: !events[i].Failure?)
            && forall i: nat | LatestFailure(events, i) :: shown == Some(events[i].failedAt)
  {
    hide Truncated, OpenUntil;
    if events != [] {
      var n := |events| - 1;
      ShowsLatestFailure(settings, events[..n]);
      assert forall i | 0 <= i < n :: events[..n][i] == events[i];
      forall i: nat | LatestFailure(events, i) && i < n ensures LatestFailure(events[..n], i) {
      }
    }
  }

  /**
   What the registry shows: the times of the latest success and of the latest failure, whatever else
   has happened since; and an error exactly when the last thing that happened is a failure, which is
   its text, cut off after 300 characters.
   */
  lemma HealthShowsLatest(settings: Settings, events: seq<Event>)
    ensures var h := After(settings, events);
            && (h.lastSuccess.None? <==> forall i | 0 <= i < |events| :: !events[i].Success?)
            && (forall i: nat | LatestSuccess(events, i) :: h.lastSuccess == Some(events[i].at))
            && (h.lastFailure.None? <==> forall i | 0 <= i < |events| :: !events[i].Failure?)
            && (forall i: nat | LatestFailure(events, i) :: h.lastFailure == Some(events[i].failedAt))
            && h.lastError == if events == [] || !events[|events| - 1].Failure? then None
                              else var error := events[|events| - 1].error;
                                   Some(if |error| <= 300 then error else error[..300])
  {
    ShowsLatestSuccess(settings, events);
    ShowsLatestFailure(settings, events);
    hide LatestSuccess, LatestFailure;
    LastErrorIs(settings, events);
  }

  lemma {:induction false} LastErrorIs(settings: Settings, events: seq<Event>)
    ensures After(settings, events).lastError ==
            if events == [] || !events[|events| - 1].Failure? then None
            else var error := events[|events| - 1].error; Some(if |error| <= 300 then error else error[..300])
  {
  }

  /** At any time, the circuit is open exactly when the history has tripped it and the latest
      cooldown has not lapsed. */
  lemma OpenIff(settings: Settings, events: seq<Event>, now: real)
    requires now >= 0.0
    ensures IsOpen(After(settings, events), now) <==>
            Tripped(settings, events) &&
            var latest := events[|events| - 1];
            now - latest.openedAt < (if latest.cooldown.Some? then latest.cooldown.value else settings.cooldown)
  {
    BreakerIsHistory(settings, events);
  }

  /**
   A lapsed cooldown does not forget: once tripped, one more failure opens the circuit again at
   once, however long ago the cooldown ended, and one success closes it.
   */
  lemma OneFailureReopens(settings: Settings, events: seq<Event>, failure: Event, success: Event, now: real)
    requires Tripped(settings, events) && failure.Failure? && success.Success?
    requires now >= 0.0
    requires now - failure.openedAt < (if failure.cooldown.Some? then failure.cooldown.value else settings.cooldown)
    ensures IsOpen(After(settings, events + [failure]), now)
    ensures forall later | later >= 0.0 :: !IsOpen(After(settings, events + [failure, success]), later)
  {
    var once, twice := events + [failure], events + [failure, success];
    assert once[..|once| - 1] == events && twice[..|twice| - 1] == once;
    OpenIff(settings, once, now);
    forall later | later >= 0.0 ensures !IsOpen(After(settings, twice), later) {
      OpenIff(settings, twice, later);
    }
  }

  // ---------------------------------------------------------------- all sources together

  function EventsOf(log: seq<(string, Event)>, source: string): seq<Event> {
    if log == [] then []
    else
      var init, last := log[..|log| - 1], log[|log| - 1];
      if last.0 == source then EventsOf(init, source) + [last.1] else EventsOf(init, source)
  }

  /** The registry after a log of events; a reset of an unregistered source is refused. */
  function RegistryAfter(settings: Settings, log: seq<(string, Event)>): map<string, Health> {
    if log == [] then map[]
    else
      var before, last := RegistryAfter(settings, log[..|log| - 1]), log[|log| - 1];
      if last.1.Reset? && last.0 !in before then before
      else before[last.0 := Apply(settings, if last.0 in before then before[last.0] else FRESH, last.1)]
  }

  /** Sources do not influence one another: each one's health is that of its own events. */
  lemma {:induction false} SourcesAreIndependent(settings: Settings, log: seq<(string, Event)>, source: string)
    ensures var r := RegistryAfter(settings, log);
            (if source in r then r[source] else FRESH) == After(settings, EventsOf(log, source))
  {
    if log != [] {
      var init, last := log[..|log| - 1], log[|log| - 1];
      SourcesAreIndependent(settings, init, source);
      AfterOneMore(settings, EventsOf(init, source), last.1);
      ResetOfFresh(settings);
      hide After, Apply;
    }
  }

  lemma AfterOneMore(settings: Settings, events: seq<Event>, e: Event)
    ensures After(settings, events + [e]) == Apply(settings, After(settings, events), e)
  {
    assert (events + [e])[..|events|] == events;
  }

  lemma ResetOfFresh(settings: Settings)
    ensures forall e: Event | e.Reset? :: Apply(settings, FRESH, e) == FRESH
  {
  }
}
