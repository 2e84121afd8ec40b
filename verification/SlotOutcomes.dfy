/**
 How a slot and a request of backend/resilient_client.py end, as a function of the answers alone:
 which answers are tried again, what is returned or raised, and for how long a failure opens the
 breaker.
 */
module SlotOutcomes {
  import opened Options
  import opened ResilientClient
  import Durations

  // ---------------------------------------------------------------- which answers are tried again

  /** No answer, one of five statuses, or a 403 whose header is a number that is not positive. */
  ghost predicate WorthRepeating(o: Outcome) {
    match o
    case TransportError => true
    case OtherError => false
    case Response(status, remaining, _) =>
      || status == 500 || status == 502 || status == 503 || status == 504 || status == 429
      || (status == 403 && remaining.Header? && exists n: int :: n <= 0 && ParseInt(remaining.text) == Some(n))
  }

  /** Every try before the given one was worth repeating, and the sleep after it was not cut short. */
  ghost predicate GetsTo(script: Script, j: nat) {
    forall i: nat | i < j :: WorthRepeating(script(i).outcome) && !script(i).interrupted
  }

  lemma WorthRepeatingIs(o: Outcome)
    ensures WorthRepeating(o) <==> Retryable(o)
  {
    hide ParseInt;
    if QuotaExhausted(o) {
      assert ParseInt(o.remaining.text) == Some(ParseInt(o.remaining.text).value);
    }
  }

  /** A try is followed by another exactly when one is left, its sleep is not cut short, and its answer is
      worth repeating. */
  lemma TriedAgainIff(flags: Flags, script: Script, i: nat)
    requires i < Tries(flags, script)
    ensures i + 1 < Tries(flags, script) <==>
            i < flags.retries && !script(i).interrupted && WorthRepeating(script(i).outcome)
  {
    TriesBounded(flags, script, 0);
    WorthRepeatingIs(script(i).outcome);
    hide WorthRepeating, Retryable;
  }

  /** The try with index j is made exactly when it is within the limit and every one before it asks for another. */
  lemma {:induction false} TryMadeIff(flags: Flags, script: Script, j: nat)
    ensures j < Tries(flags, script) <==> j <= flags.retries && GetsTo(script, j)
    decreases j
  {
    hide WorthRepeating, TriesFrom;
    if flags.retries >= 0 {
      TriesBounded(flags, script, 0);
    }
    if j > 0 {
      TryMadeIff(flags, script, j - 1);
      if j - 1 < Tries(flags, script) {
        TriedAgainIff(flags, script, j - 1);
      }
      assert GetsTo(script, j) <==>
             GetsTo(script, j - 1) && WorthRepeating(script(j - 1).outcome) && !script(j - 1).interrupted;
    }
  }

  // ---------------------------------------------------------------- how a slot ends

  /** The try with index j is made, and is the last one. */
  ghost predicate IsLast(flags: Flags, script: Script, j: nat) {
    && j <= flags.retries && GetsTo(script, j)
    && (j < flags.retries ==> script(j).interrupted || !WorthRepeating(script(j).outcome))
  }

  lemma LastTry(flags: Flags, script: Script, j: nat)
    ensures IsLast(flags, script, j) <==> j + 1 == Tries(flags, script)
  {
    TryMadeIff(flags, script, j);
    if j < Tries(flags, script) {
      TriedAgainIff(flags, script, j);
    }
    hide WorthRepeating, GetsTo;
    if flags.retries >= 0 {
      TriesBounded(flags, script, 0);
    }
  }

  /** How a slot ends, from its last try. */
  lemma EndingOfLast(flags: Flags, script: Script, j: nat)
    requires j + 1 == Tries(flags, script)
    ensures SlotEnding(flags, script) ==
            if j < flags.retries && WorthRepeating(script(j).outcome) then RaisedOther
            else EndingOf(script(j).outcome)
  {
    WorthRepeatingIs(script(j).outcome);
    TriesBounded(flags, script, 0);
    hide WorthRepeating, Retryable, EndingOf;
  }

  /**
   A slot returns an answer exactly when some try within the limit gets one below 400 or from 600 on,
   and every try before it asked for another.
   */
  lemma ReturnsIff(flags: Flags, script: Script, status: nat)
    ensures SlotEnding(flags, script) == Returned(status) <==>
            !(400 <= status < 600) && exists j: nat ::
              j <= flags.retries && GetsTo(script, j) &&
              script(j).outcome.Response? && script(j).outcome.status == status
  {
    hide GetsTo, Tries;
    if SlotEnding(flags, script) == Returned(status) {
      var j := Tries(flags, script) - 1;
      EndingOfLast(flags, script, j);
      TryMadeIff(flags, script, j);
    }
    if j: nat :| !(400 <= status < 600) && j <= flags.retries && GetsTo(script, j) &&
                 script(j).outcome.Response? && script(j).outcome.status == status {
      assert !WorthRepeating(script(j).outcome);
      LastTry(flags, script, j);
      EndingOfLast(flags, script, j);
    }
  }

  /**
   It raises an error status exactly when some try within the limit gets it, every try before it
   asked for another, and it is not worth repeating or was the last that is allowed.
   */
  lemma RaisesStatusIff(flags: Flags, script: Script, status: nat, remaining: Remaining)
    ensures SlotEnding(flags, script) == RaisedStatus(status, remaining) <==>
            400 <= status < 600 && exists j: nat ::
              j <= flags.retries && GetsTo(script, j) &&
              script(j).outcome.Response? && script(j).outcome.status == status &&
              script(j).outcome.remaining == remaining &&
              (j == flags.retries || !WorthRepeating(script(j).outcome))
  {
    hide GetsTo, Tries, WorthRepeating;
    if SlotEnding(flags, script) == RaisedStatus(status, remaining) {
      var j := Tries(flags, script) - 1;
      EndingOfLast(flags, script, j);
      TryMadeIff(flags, script, j);
    }
    if j: nat :| 400 <= status < 600 && j <= flags.retries && GetsTo(script, j) &&
                 script(j).outcome.Response? && script(j).outcome.status == status &&
                 script(j).outcome.remaining == remaining &&
                 (j == flags.retries || !WorthRepeating(script(j).outcome)) {
      LastTry(flags, script, j);
      EndingOfLast(flags, script, j);
    }
  }

  /** It raises a transport error exactly when the last try that is allowed meets one. */
  lemma RaisesTransportIff(flags: Flags, script: Script)
    ensures SlotEnding(flags, script) == RaisedTransport <==>
            flags.retries >= 0 && GetsTo(script, flags.retries) && script(flags.retries).outcome.TransportError?
  {
    if SlotEnding(flags, script) == RaisedTransport {
      var j := Tries(flags, script) - 1;
      EndingOfLast(flags, script, j);
      TryMadeIff(flags, script, j);
    }
    hide GetsTo, Tries;
    if flags.retries >= 0 && GetsTo(script, flags.retries) && script(flags.retries).outcome.TransportError? {
      LastTry(flags, script, flags.retries);
      EndingOfLast(flags, script, flags.retries);
    }
  }

  /** A header that is a printed number, with or without a sign, reads as that number. */
  lemma HeaderReads(n: nat)
    ensures ParseInt(Durations.NatText(n)) == Some(n) && ParseInt("+" + Durations.NatText(n)) == Some(n)
    ensures ParseInt("-" + Durations.NatText(n)).Some? && ParseInt("-" + Durations.NatText(n)).value == 0 - n
  {
    var d := Durations.NatText(n);
    Durations.NatTextValue(n);
    hide Durations.NatText, Durations.DigitsValue;
    GroupOfDigits(d);
    assert Durations.IsDigit(d[0]);
    Stripped(d);
    Stripped("-" + d);
    Stripped("+" + d);
    assert ("-" + d)[1..] == d && ("+" + d)[1..] == d;
    hide Durations.Strip, GroupsValue;
  }

  lemma Stripped(s: string)
    requires forall i | 0 <= i < |s| :: Durations.IsDigit(s[i]) || s[i] == '-' || s[i] == '+'
    ensures Durations.Strip(s) == s
  {
    Durations.PlainIsFixed(s);
  }

  lemma GroupOfDigits(d: string)
    requires Durations.Digits(d)
    ensures GroupsValue(d) == Some(Durations.DigitsValue(d))
  {
    DigitsStay(d);
    hide WithoutUnderscores, Durations.DigitsValue;
    assert DigitGroups(d);
  }

  lemma {:induction false} DigitsStay(s: string)
    requires forall i | 0 <= i < |s| :: Durations.IsDigit(s[i])
    ensures WithoutUnderscores(s) == s
  {
    if s != "" {
      assert Durations.IsDigit(s[0]);
      DigitsStay(s[1..]);
    }
  }

  // ---------------------------------------------------------------- how long a failure opens the breaker

  /** The backoff starts at 1.5 seconds and doubles; a header overrides it, up to two minutes. */
  lemma DelayIs(retryAfter: real, attempt: nat)
    ensures retryAfter <= 0.0 ==> RetryDelay(retryAfter, 0) == 1.5
    ensures retryAfter <= 0.0 ==> RetryDelay(retryAfter, attempt + 1) == 2.0 * RetryDelay(retryAfter, attempt)
    ensures 0.0 < retryAfter <= 120.0 ==> RetryDelay(retryAfter, attempt) == retryAfter
    ensures retryAfter > 120.0 ==> RetryDelay(retryAfter, attempt) == 120.0
  {
    assert Pow2(attempt + 1) == 2 * Pow2(attempt);
    assert Pow2(attempt + 1) as real == 2.0 * Pow2(attempt) as real;
  }

  /**
   What the breaker hears of a slot: a success of an answer that is returned; of a transport error
   that is raised, a failure with the default cooldown; of a 500, 502, 503 or 504, one with the delay
   of that answer or the configured cooldown, whichever is longer; of any other server error, one
   with the default; of nothing else.
   */
  lemma VerdictIs(flags: Flags, script: Script, j: nat) returns (verdict: seq<Event>)
    requires flags.recordCircuit && IsLast(flags, script, j)
    ensures SlotTrace(flags, script) == Calls(j + 1) + verdict
    ensures
      var o := script(j).outcome;
      if j < flags.retries && WorthRepeating(o) then verdict == []
      else match o
        case TransportError => verdict == [CircuitFailure(None)]
        case OtherError => verdict == []
        case Response(status, _, retryAfter) =>
          if status == 500 || status == 502 || status == 503 || status == 504 then
            var delay := RetryDelay(retryAfter, flags.retries);
            verdict == [CircuitFailure(Some(if delay > flags.circuitCooldown then delay else flags.circuitCooldown))]
          else if 500 <= status < 600 then verdict == [CircuitFailure(None)]
          else if 400 <= status < 500 then
            verdict == if flags.recordClientError && !WorthRepeating(o) then [ErrorNoted(status)] else []
          else verdict == [CircuitSuccess]
  {
    LastTry(flags, script, j);
    var o := script(j).outcome;
    WorthRepeatingIs(o);
    TriesBounded(flags, script, 0);
    hide Calls, RetryDelay, Tries;
    verdict := if j < flags.retries && WorthRepeating(o) then [] else Verdict(flags, o, j) + Note(flags, o);
  }

  // ---------------------------------------------------------------- how a request ends

  /**
   A round ends the request so: an open circuit that it does not wait for, or is cancelled while it
   does; cancellation in the queue; or what its slot ends with, unless that is a rate limit to wait for.
   */
  ghost predicate Ends(flags: Flags, round: Round, ending: Ending) {
    match round
    case OpenCircuit(interrupted) =>
      if flags.waitOnCircuit then interrupted && ending == RaisedOther else ending == RaisedCircuitOpen
    case CancelledInQueue => ending == RaisedOther
    case Slot(_, script) =>
      && SlotEnding(flags, script) == ending
      && !(flags.waitOnRateLimit && ending.RaisedStatus? &&
           (ending.status == 429 || (ending.status == 403 && ending.remaining == Header("0"))))
  }

  /** How a request ends: as the first round does that ends it, and as long as none does, it waits. */
  lemma {:induction false} RequestEndsIff(flags: Flags, rounds: seq<Round>, trace: seq<Event>, ending: Ending)
    ensures RequestRun(flags, rounds, trace).0 == Some(ending) <==>
            Reaches(flags, rounds, r => Ends(flags, r, ending))
    decreases |rounds|
  {
    var p := r => Ends(flags, r, ending);
    if rounds == [] {
      NothingReached(flags, p);
    } else {
      ReachesFirst(flags, rounds, p);
      RoundEnds(flags, rounds[0], ending);
      hide SlotEnding, AddRound, Reaches, Ends, GoesOn, RoundEnding;
      if GoesOn(flags, rounds[0]) {
        RequestEndsIff(flags, rounds[1..], AddRound(flags, trace, rounds[0]), ending);
      }
    }
  }

  lemma RoundEnds(flags: Flags, round: Round, ending: Ending)
    ensures Ends(flags, round, ending) <==> !GoesOn(flags, round) && RoundEnding(flags, round) == ending
  {
    hide SlotEnding;
  }
}
