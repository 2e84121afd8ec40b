/**
 One client key's token bucket (backend/rate_limit.py) as a function of the times of its calls.
 Time and tokens are real numbers.
 */
module TokenHistory {
  import opened Options

  type Rate = n: nat | n >= 1 witness 1

  datatype Bucket = Bucket(tokens: real, last: real)

  function Capacity(rate: Rate): real {
    rate as real
  }

  function RefillPerSecond(rate: Rate): real {
    rate as real / 60.0
  }

  /** The tokens that the given time brings. */
  function Refill(rate: Rate, seconds: real): real {
    seconds * RefillPerSecond(rate)
  }

  function Refilled(rate: Rate, b: Bucket, now: real): real {
    Min(Capacity(rate), b.tokens + Refill(rate, now - b.last))
  }

  /** A key without a bucket has a full one. */
  function Current(rate: Rate, b: Option<Bucket>, now: real): Bucket {
    if b.Some? then b.value else Bucket(Capacity(rate), now)
  }

  function TakeToken(rate: Rate, b: Option<Bucket>, now: real): Bucket {
    var tokens := Refilled(rate, Current(rate, b, now), now);
    Bucket(if tokens >= 1.0 then tokens - 1.0 else tokens, now)
  }

  /** 0 when a token is granted, otherwise the seconds until the next one. */
  function Answer(rate: Rate, b: Option<Bucket>, now: real): real {
    var tokens := Refilled(rate, Current(rate, b, now), now);
    if tokens >= 1.0 then 0.0 else (1.0 - tokens) / RefillPerSecond(rate)
  }

  function Answers(rate: Rate, b: Option<Bucket>, times: seq<real>): (answers: seq<real>)
    ensures |answers| == |times|
    decreases |times|
  {
    if times == [] then []
    else [Answer(rate, b, times[0])] + Answers(rate, Some(TakeToken(rate, b, times[0])), times[1..])
  }

  function AfterCalls(rate: Rate, b: Option<Bucket>, times: seq<real>): Option<Bucket>
    decreases |times|
  {
    if times == [] then b
    else AfterCalls(rate, Some(TakeToken(rate, b, times[0])), times[1..])
  }

  /** The times do not go back, and none is before the bucket's last update. */
  ghost predicate Forward(b: Option<Bucket>, times: seq<real>) {
    (forall i, j | 0 <= i < j < |times| :: times[i] <= times[j]) &&
    (b.Some? && times != [] ==> b.value.last <= times[0])
  }

  ghost predicate InRange(rate: Rate, b: Option<Bucket>) {
    b.Some? ==> 0.0 <= b.value.tokens <= Capacity(rate)
  }

  function GrantCount(answers: seq<real>): nat {
    if answers == [] then 0 else (if answers[0] == 0.0 then 1 else 0) + GrantCount(answers[1..])
  }

  // ---------------------------------------------------------------- the range of tokens

  lemma RefillPositive(rate: Rate)
    ensures RefillPerSecond(rate) > 0.0
    ensures Capacity(rate) / RefillPerSecond(rate) == 60.0
    ensures 60.0 * RefillPerSecond(rate) == Capacity(rate)
  {
  }

  lemma RefillGrows(rate: Rate, seconds: real)
    ensures seconds >= 0.0 ==> Refill(rate, seconds) >= 0.0
    ensures seconds < 0.0 ==> Refill(rate, seconds) < 0.0
  {
  }

  lemma RefillAdds(rate: Rate, a: real, b: real)
    ensures Refill(rate, a) + Refill(rate, b) == Refill(rate, a + b)
  {
  }

  lemma TakeKeepsRange(rate: Rate, b: Option<Bucket>, now: real)
    requires InRange(rate, b) && (b.Some? ==> b.value.last <= now)
    ensures InRange(rate, Some(TakeToken(rate, b, now)))
    ensures Answer(rate, b, now) >= 0.0
    ensures b.None? ==> Answer(rate, b, now) == 0.0
  {
    RefillGrows(rate, now - Current(rate, b, now).last);
    RefillPositive(rate);
  }

  /** Whatever the calls, the tokens stay between zero and the capacity. */
  lemma {:induction false} TokensStayInRange(rate: Rate, b: Option<Bucket>, times: seq<real>)
    requires InRange(rate, b) && Forward(b, times)
    ensures InRange(rate, AfterCalls(rate, b, times))
    decreases |times|
  {
    if times != [] {
      TakeKeepsRange(rate, b, times[0]);
      TokensStayInRange(rate, Some(TakeToken(rate, b, times[0])), times[1..]);
    }
  }

  // ---------------------------------------------------------------- the window bound

  /** One call gives out no more than the bucket holds after the refill. */
  lemma CallSpends(rate: Rate, b: Bucket, now: real)
    ensures (if Answer(rate, Some(b), now) == 0.0 then 1.0 else 0.0) + TakeToken(rate, Some(b), now).tokens
            <= b.tokens + Refill(rate, now - b.last)
  {
    HintPositive(rate, Refilled(rate, b, now));
  }

  lemma {:induction false} GrantsAreSpent(rate: Rate, b: Bucket, times: seq<real>)
    requires times != [] && InRange(rate, Some(b)) && Forward(Some(b), times)
    ensures GrantCount(Answers(rate, Some(b), times)) as real
            <= b.tokens + Refill(rate, times[|times| - 1] - b.last)
    decreases |times|
  {
    var b', rest := TakeToken(rate, Some(b), times[0]), times[1..];
    TakeKeepsRange(rate, Some(b), times[0]);
    CallSpends(rate, b, times[0]);
    var answers := Answers(rate, Some(b), times);
    assert answers[0] == Answer(rate, Some(b), times[0]);
    assert answers[1..] == Answers(rate, Some(b'), rest);
    hide Refill, Answer;
    if rest != [] {
      GrantsAreSpent(rate, b', rest);
      RefillAdds(rate, times[|times| - 1] - times[0], times[0] - b.last);
    }
  }

  /** The bucket as it stands at the first call, refilled, answers like the bucket itself. */
  lemma RefilledFirst(rate: Rate, b: Option<Bucket>, times: seq<real>) returns (full: Bucket)
    requires times != [] && InRange(rate, b) && Forward(b, times)
    ensures InRange(rate, Some(full)) && full.last == times[0]
    ensures Answers(rate, b, times) == Answers(rate, Some(full), times)
  {
    full := Bucket(Refilled(rate, Current(rate, b, times[0]), times[0]), times[0]);
    RefillGrows(rate, times[0] - Current(rate, b, times[0]).last);
    assert Refilled(rate, full, times[0]) == full.tokens;
  }

  /** From the first call of a stretch of calls on, it spends at most a full bucket and the refill. */
  lemma StretchBound(rate: Rate, b: Option<Bucket>, times: seq<real>)
    requires times != [] && InRange(rate, b) && Forward(b, times)
    ensures GrantCount(Answers(rate, b, times)) as real
            <= Capacity(rate) + Refill(rate, times[|times| - 1] - times[0])
  {
    hide Refill;
    var full := RefilledFirst(rate, b, times);
    GrantsAreSpent(rate, full, times);
  }

  lemma {:induction false} AnswersSplit(rate: Rate, b: Option<Bucket>, times: seq<real>, i: nat)
    requires i <= |times|
    ensures Answers(rate, b, times)[i..] == Answers(rate, AfterCalls(rate, b, times[..i]), times[i..])
    decreases |times|
  {
    if i > 0 {
      var b' := Some(TakeToken(rate, b, times[0]));
      AnswersSplit(rate, b', times[1..], i - 1);
      assert times[1..][..i - 1] == times[..i][1..];
    }
  }

  lemma {:induction false} AnswersPrefix(rate: Rate, b: Option<Bucket>, times: seq<real>, j: nat)
    requires j <= |times|
    ensures Answers(rate, b, times)[..j] == Answers(rate, b, times[..j])
    decreases |times|
  {
    if j > 0 {
      AnswersPrefix(rate, Some(TakeToken(rate, b, times[0])), times[1..], j - 1);
      assert times[..j][1..] == times[1..][..j - 1];
    }
  }

  /**
   The window bound.  A key's calls at times that do not go back, any stretch of them that spans at
   most T seconds: at most rate * (1 + T / 60) of the stretch are granted.
   */
  lemma WindowBound(rate: Rate, times: seq<real>, i: nat, j: nat, T: real)
    requires Forward(None, times) && i < j <= |times| && times[j - 1] - times[i] <= T
    ensures GrantCount(Answers(rate, None, times)[i..j]) as real <= rate as real * (1.0 + T / 60.0)
  {
    hide Refill;
    var before := StretchOfHistory(rate, times, i, j);
    StretchBound(rate, before, times[i..j]);
    WindowArithmetic(rate, times[j - 1] - times[i], T);
  }

  /** A stretch of a history is the history of the bucket that the calls before it leave. */
  lemma StretchOfHistory(rate: Rate, times: seq<real>, i: nat, j: nat) returns (before: Option<Bucket>)
    requires Forward(None, times) && i < j <= |times|
    ensures InRange(rate, before) && Forward(before, times[i..j])
    ensures Answers(rate, None, times)[i..j] == Answers(rate, before, times[i..j])
  {
    before := AfterCalls(rate, None, times[..i]);
    TokensStayInRange(rate, None, times[..i]);
    LastUpdate(rate, None, times[..i]);
    AnswersPrefix(rate, None, times, j);
    AnswersSplit(rate, None, times[..j], i);
    assert times[..j][..i] == times[..i] && times[..j][i..] == times[i..j];
    assert Answers(rate, None, times)[i..j] == Answers(rate, None, times)[..j][i..];
  }

  lemma WindowArithmetic(rate: Rate, span: real, T: real)
    requires span <= T
    ensures Capacity(rate) + Refill(rate, span) <= rate as real * (1.0 + T / 60.0)
  {
    RefillGrows(rate, T - span);
    var r := rate as real;
    assert T * (r / 60.0) == r * (T / 60.0);
  }

  lemma {:induction false} LastUpdate(rate: Rate, b: Option<Bucket>, times: seq<real>)
    ensures times != [] ==> AfterCalls(rate, b, times).Some? &&
                            AfterCalls(rate, b, times).value.last == times[|times| - 1]
    decreases |times|
  {
    if times != [] {
      LastUpdate(rate, Some(TakeToken(rate, b, times[0])), times[1..]);
    }
  }

  // ---------------------------------------------------------------- which calls are granted

  /** The tokens that the call with index j finds, by the calls before it. */
  function Level(rate: Rate, times: seq<real>, j: nat): real
    requires j < |times|
  {
    Refilled(rate, Current(rate, AfterCalls(rate, None, times[..j]), times[j]), times[j])
  }

  lemma {:induction false} AfterLast(rate: Rate, b: Option<Bucket>, times: seq<real>, j: nat)
    requires j < |times|
    ensures AfterCalls(rate, b, times[..j + 1]) ==
            Some(TakeToken(rate, AfterCalls(rate, b, times[..j]), times[j]))
    decreases j
  {
    if j == 0 {
      assert times[..1][1..] == [] && times[..0] == [];
    } else {
      AfterLast(rate, Some(TakeToken(rate, b, times[0])), times[1..], j - 1);
      assert times[..j + 1][1..] == times[1..][..j] && times[..j][1..] == times[1..][..j - 1];
    }
  }

  lemma AnswerAt(rate: Rate, times: seq<real>, j: nat)
    requires j < |times|
    ensures Answers(rate, None, times)[j] == Answer(rate, AfterCalls(rate, None, times[..j]), times[j])
    ensures Answers(rate, None, times)[j] == 0.0 <==> Level(rate, times, j) >= 1.0
  {
    AnswersSplit(rate, None, times, j);
    assert Answers(rate, None, times)[j..][0] == Answers(rate, None, times)[j];
    HintPositive(rate, Level(rate, times, j));
  }

  lemma {:induction false} CountLast(answers: seq<real>)
    requires answers != []
    ensures GrantCount(answers) ==
            GrantCount(answers[..|answers| - 1]) + (if answers[|answers| - 1] == 0.0 then 1 else 0)
  {
    if |answers| > 1 {
      CountLast(answers[1..]);
      assert answers[1..][..|answers| - 2] == answers[..|answers| - 1][1..];
    }
  }

  /** What a full bucket at call i would have left for call j, after the grants in between. */
  function Slack(rate: Rate, times: seq<real>, i: nat, j: nat): real
    requires i <= j < |times|
  {
    Capacity(rate) + Refill(rate, times[j] - times[i]) - GrantCount(Answers(rate, None, times)[i..j]) as real
  }

  lemma SlackStep(rate: Rate, times: seq<real>, i: nat, j: nat)
    requires i < j < |times|
    ensures Slack(rate, times, i, j) == Slack(rate, times, i, j - 1)
              - (if Answers(rate, None, times)[j - 1] == 0.0 then 1.0 else 0.0) + Refill(rate, times[j] - times[j - 1])
  {
    var stretch := Answers(rate, None, times)[i..j];
    assert stretch[..|stretch| - 1] == Answers(rate, None, times)[i..j - 1];
    CountLast(stretch);
    RefillAdds(rate, times[j - 1] - times[i], times[j] - times[j - 1]);
    hide Refill, Answers;
  }

  lemma NoRefill(rate: Rate)
    ensures Refill(rate, 0.0) == 0.0
  {
  }

  /** What a later call finds of the tokens that this one found. */
  lemma AfterTake(rate: Rate, b: Option<Bucket>, now: real, next: real)
    ensures var found := Refilled(rate, Current(rate, b, now), now);
            var left := found - (if Answer(rate, b, now) == 0.0 then 1.0 else 0.0);
            Refilled(rate, Current(rate, Some(TakeToken(rate, b, now)), next), next) ==
            Min(Capacity(rate), left + Refill(rate, next - now))
  {
    HintPositive(rate, Refilled(rate, Current(rate, b, now), now));
    hide Refill, Capacity;
  }

  /** From one call to the next: the refill, up to the capacity, of what the first one left. */
  lemma LevelStep(rate: Rate, times: seq<real>, j: nat)
    requires 0 < j < |times|
    ensures var left := Level(rate, times, j - 1) - (if Answers(rate, None, times)[j - 1] == 0.0 then 1.0 else 0.0);
            Level(rate, times, j) == Min(Capacity(rate), left + Refill(rate, times[j] - times[j - 1]))
  {
    AnswerAt(rate, times, j - 1);
    AfterLast(rate, None, times, j - 1);
    hide Refill, Answers, AfterCalls, Answer, TakeToken, Refilled, Current, Capacity;
    AfterTake(rate, AfterCalls(rate, None, times[..j - 1]), times[j - 1], times[j]);
  }

  /** The tokens that a call finds are the least slack of all stretches that lead up to it. */
  lemma {:induction false} LevelIsLeastSlack(rate: Rate, times: seq<real>, j: nat)
    requires j < |times|
    ensures forall i: nat | i <= j :: Level(rate, times, j) <= Slack(rate, times, i, j)
    ensures exists i: nat :: i <= j && Level(rate, times, j) == Slack(rate, times, i, j)
    decreases j
  {
    NoRefill(rate);
    assert Slack(rate, times, j, j) == Capacity(rate);
    if j == 0 {
      assert times[..0] == [];
    } else {
      LevelIsLeastSlack(rate, times, j - 1);
      LevelStep(rate, times, j);
      hide Level, Slack, Refill, Capacity, Answers;
      forall i: nat | i < j
        ensures Slack(rate, times, i, j) == Slack(rate, times, i, j - 1)
                  - (if Answers(rate, None, times)[j - 1] == 0.0 then 1.0 else 0.0)
                  + Refill(rate, times[j] - times[j - 1])
      {
        SlackStep(rate, times, i, j);
      }
      var i: nat :| i <= j - 1 && Level(rate, times, j - 1) == Slack(rate, times, i, j - 1);
      assert Level(rate, times, j) == Slack(rate, times, i, j) || Level(rate, times, j) == Slack(rate, times, j, j);
    }
  }

  /** One more grant after those of the calls i to j - 1 is within the window bound. */
  ghost predicate OneMoreFits(rate: Rate, times: seq<real>, i: nat, j: nat)
    requires i <= j < |times|
  {
    GrantCount(Answers(rate, None, times)[i..j]) as real + 1.0 <= rate as real * (1.0 + (times[j] - times[i]) / 60.0)
  }

  lemma SlackMeans(rate: Rate, times: seq<real>, i: nat, j: nat)
    requires i <= j < |times|
    ensures OneMoreFits(rate, times, i, j) <==> Slack(rate, times, i, j) >= 1.0
  {
    WindowIs(rate, times[j] - times[i]);
    hide Answers, Refill;
  }

  /**
   Exactly which calls are granted, by the answers before them: a call is granted if and only if one
   more grant is within the bound of every stretch of calls that leads up to it.  The limiter never
   denies a call that the bound allows.
   */
  lemma GrantedIff(rate: Rate, times: seq<real>, j: nat)
    requires j < |times|
    ensures Answers(rate, None, times)[j] == 0.0 <==> forall i: nat | i <= j :: OneMoreFits(rate, times, i, j)
  {
    AnswerAt(rate, times, j);
    LevelIsLeastSlack(rate, times, j);
    forall i: nat | i <= j
      ensures OneMoreFits(rate, times, i, j) <==> Slack(rate, times, i, j) >= 1.0
    {
      SlackMeans(rate, times, i, j);
    }
    hide Level, Slack, Answers, OneMoreFits;
  }

  lemma WindowIs(rate: Rate, span: real)
    ensures Capacity(rate) + Refill(rate, span) == rate as real * (1.0 + span / 60.0)
  {
    var r := rate as real;
    assert span * (r / 60.0) == r * (span / 60.0);
  }

  // ---------------------------------------------------------------- denials

  /**
   The hint is exact: after a denial that answers w, a next call is granted exactly when at least
   w seconds have passed.
   */
  lemma HintIsExact(rate: Rate, b: Option<Bucket>, now: real, next: real)
    requires InRange(rate, b) && (b.Some? ==> b.value.last <= now <= next)
    requires Answer(rate, b, now) != 0.0
    ensures Answer(rate, Some(TakeToken(rate, b, now)), next) == 0.0 <==>
            next - now >= Answer(rate, b, now)
  {
    TakeKeepsRange(rate, b, now);
    var tokens := Refilled(rate, Current(rate, b, now), now);
    var w, elapsed := Answer(rate, b, now), next - now;
    HintRefills(rate, tokens);
    RefillGrows(rate, elapsed - w);
    RefillAdds(rate, w, elapsed - w);
    HintPositive(rate, tokens + Refill(rate, elapsed));
    RefillGrows(rate, elapsed);
    hide Refill;
  }

  /** The whole seconds of the Retry-After header that a denial is sent with. */
  function RetryAfterHeader(hint: real): int {
    if Ceil(hint) > 1 then Ceil(hint) else 1
  }

  /** A client that waits as long as the header says is granted its next call. */
  lemma HeaderSuffices(rate: Rate, b: Option<Bucket>, now: real, next: real)
    requires InRange(rate, b) && (b.Some? ==> b.value.last <= now <= next)
    requires Answer(rate, b, now) != 0.0
    requires next - now >= RetryAfterHeader(Answer(rate, b, now)) as real
    ensures Answer(rate, Some(TakeToken(rate, b, now)), next) == 0.0
  {
    HintIsExact(rate, b, now, next);
  }

  /** And no whole number of seconds below it would do, unless the header says a single one. */
  lemma HeaderIsLeast(rate: Rate, b: Option<Bucket>, now: real, next: real)
    requires InRange(rate, b) && (b.Some? ==> b.value.last <= now <= next)
    requires Answer(rate, b, now) != 0.0
    requires next - now <= (RetryAfterHeader(Answer(rate, b, now)) - 1) as real
    requires RetryAfterHeader(Answer(rate, b, now)) > 1
    ensures Answer(rate, Some(TakeToken(rate, b, now)), next) != 0.0
  {
    HintIsExact(rate, b, now, next);
    hide Answer;
  }

  /** The hint is the time in which the missing part of a token is refilled. */
  lemma HintRefills(rate: Rate, tokens: real)
    ensures Refill(rate, (1.0 - tokens) / RefillPerSecond(rate)) == 1.0 - tokens
  {
  }

  lemma HintPositive(rate: Rate, tokens: real)
    ensures tokens < 1.0 ==> (1.0 - tokens) / RefillPerSecond(rate) > 0.0
  {
    RefillPositive(rate);
  }

  function Kept<T>(xs: seq<T>, keep: seq<bool>): seq<T>
    requires |xs| == |keep|
  {
    if xs == [] then []
    else (if keep[0] then [xs[0]] else []) + Kept(xs[1..], keep[1..])
  }

  /** The two buckets refill along the same line from the clock on. */
  ghost predicate SameLine(rate: Rate, b: Option<Bucket>, b': Option<Bucket>, clock: real) {
    b == b' ||
    (b.Some? && b'.Some? && b.value.last <= clock && b'.value.last <= clock &&
     b.value.tokens + Refill(rate, clock - b.value.last) == b'.value.tokens + Refill(rate, clock - b'.value.last))
  }

  lemma SameLineLater(rate: Rate, b: Option<Bucket>, b': Option<Bucket>, clock: real, now: real)
    requires SameLine(rate, b, b', clock) && clock <= now
    ensures Answer(rate, b, now) == Answer(rate, b', now)
    ensures TakeToken(rate, b, now) == TakeToken(rate, b', now)
  {
    if b != b' {
      RefillAdds(rate, clock - b.value.last, now - clock);
      RefillAdds(rate, clock - b'.value.last, now - clock);
    }
  }

  lemma DenialStaysOnLine(rate: Rate, b: Option<Bucket>, b': Option<Bucket>, clock: real, now: real)
    requires SameLine(rate, b, b', clock) && clock <= now
    requires InRange(rate, b) && (b.Some? ==> b.value.last <= now)
    requires Answer(rate, b, now) != 0.0
    ensures SameLine(rate, Some(TakeToken(rate, b, now)), b', now)
  {
    TakeKeepsRange(rate, b, now);
    if b != b' {
      RefillAdds(rate, clock - b.value.last, now - clock);
      RefillAdds(rate, clock - b'.value.last, now - clock);
    }
  }

  lemma {:induction false} ErasureInvisible(rate: Rate, b: Option<Bucket>, b': Option<Bucket>, clock: real,
                                            times: seq<real>, keep: seq<bool>)
    requires |keep| == |times| && Forward(b, times) && InRange(rate, b)
    requires SameLine(rate, b, b', clock) && (times != [] ==> clock <= times[0])
    requires forall i | 0 <= i < |times| && !keep[i] :: Answers(rate, b, times)[i] != 0.0
    ensures Answers(rate, b', Kept(times, keep)) == Kept(Answers(rate, b, times), keep)
    decreases |times|
  {
    if times != [] {
      var now, answers := times[0], Answers(rate, b, times);
      var next := Some(TakeToken(rate, b, now));
      assert answers[1..] == Answers(rate, next, times[1..]);
      TakeKeepsRange(rate, b, now);
      if keep[0] {
        SameLineLater(rate, b, b', clock, now);
        ErasureInvisible(rate, next, next, now, times[1..], keep[1..]);
        assert Kept(times, keep)[1..] == Kept(times[1..], keep[1..]);
      } else {
        assert answers[0] != 0.0;
        DenialStaysOnLine(rate, b, b', clock, now);
        ErasureInvisible(rate, next, b', now, times[1..], keep[1..]);
        assert Kept(times, keep) == Kept(times[1..], keep[1..]);
        assert Kept(answers, keep) == Kept(answers[1..], keep[1..]);
      }
    }
  }

  /**
   Denials cost nothing: erasing any of the denied calls from a key's history leaves the answer to
   every other call unchanged.
   */
  lemma DenialsCostNothing(rate: Rate, times: seq<real>, keep: seq<bool>)
    requires |keep| == |times| && Forward(None, times)
    requires forall i | 0 <= i < |times| && !keep[i] :: Answers(rate, None, times)[i] != 0.0
    ensures Answers(rate, None, Kept(times, keep)) == Kept(Answers(rate, None, times), keep)
  {
    if times != [] {
      ErasureInvisible(rate, None, None, times[0], times, keep);
    }
  }
}
