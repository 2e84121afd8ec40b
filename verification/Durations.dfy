/**
 The duration parser of backend/api_queue.py: unit durations, relative seconds, epochs and dates.
 Text is ASCII.  Python's float() on anything but a run of digits, and its date parser, are
 parameters.
 */
module Durations {
  import opened Options

  // ---------------------------------------------------------------- digits

  predicate IsDigit(c: char) {
    '0' <= c <= '9'
  }

  predicate Digits(s: string) {
    s != "" && forall i | 0 <= i < |s| :: IsDigit(s[i])
  }

  function DigitsValue(s: string): nat
    requires forall i | 0 <= i < |s| :: IsDigit(s[i])
  {
    if s == "" then 0
    else
      var last := s[|s| - 1];
      assert IsDigit(last);
      10 * DigitsValue(s[..|s| - 1]) + (last as int - '0' as int)
  }

  function DigitText(d: nat): char
    requires d < 10
  {
    ('0' as int + d) as char
  }

  function NatText(n: nat): (s: string)
    ensures Digits(s)
  {
    if n < 10 then [DigitText(n)] else NatText(n / 10) + [DigitText(n % 10)]
  }

  lemma {:induction false} NatTextValue(n: nat)
    ensures DigitsValue(NatText(n)) == n
  {
    var s := NatText(n);
    if n < 10 {
      assert s[..|s| - 1] == "";
    } else {
      NatTextValue(n / 10);
      assert s[..|s| - 1] == NatText(n / 10);
    }
  }

  function Pow10(n: nat): nat {
    if n == 0 then 1 else 10 * Pow10(n - 1)
  }

  lemma {:induction false} Pow10Positive(n: nat)
    ensures Pow10(n) >= 1
  {
    if n > 0 {
      Pow10Positive(n - 1);
    }
  }

  /** The length of the run of digits that the text starts with. */
  function Span(s: string): (n: nat)
    ensures n <= |s| && (forall i | 0 <= i < n :: IsDigit(s[i])) && (n < |s| ==> !IsDigit(s[n]))
  {
    if s == "" || !IsDigit(s[0]) then 0 else 1 + Span(s[1..])
  }

  lemma {:induction false} SpanOf(d: string, rest: string)
    requires forall i | 0 <= i < |d| :: IsDigit(d[i])
    requires rest != "" ==> !IsDigit(rest[0])
    ensures Span(d + rest) == |d|
  {
    if d == "" {
      assert d + rest == rest;
    } else {
      assert (d + rest)[1..] == d[1..] + rest;
      SpanOf(d[1..], rest);
    }
  }

  /** A run of digits, the character that ends it, and the text after that. */
  lemma SpanSplits(d: string, c: char, tail: string)
    requires (forall i | 0 <= i < |d| :: IsDigit(d[i])) && !IsDigit(c)
    ensures var s := d + [c] + tail;
            Span(s) == |d| && s[|d|] == c && s[..|d|] == d && s[|d| + 1..] == tail && s[|d|..] == [c] + tail
  {
    SpanOf(d, [c] + tail);
    assert d + [c] + tail == d + ([c] + tail);
  }

  // ---------------------------------------------------------------- the unit grammar

  datatype Seconds = Seconds(whole: string, fraction: Option<string>, milli: bool)

  /** One way to read a text as hours, minutes and seconds. */
  datatype Reading = Reading(hours: Option<string>, mins: Option<string>, secs: Option<Seconds>)

  predicate WellFormed(r: Reading) {
    && (r.hours.Some? ==> Digits(r.hours.value))
    && (r.mins.Some? ==> Digits(r.mins.value))
    && (r.secs.Some? ==> Digits(r.secs.value.whole) &&
                         (r.secs.value.fraction.Some? ==> Digits(r.secs.value.fraction.value)))
  }

  function Unit(digits: Option<string>, unit: char): string {
    if digits.Some? then digits.value + [unit] else ""
  }

  function Suffix(milli: bool): string {
    if milli then "ms" else "s"
  }

  function SecondsText(s: Option<Seconds>): string {
    match s
    case None => ""
    case Some(Seconds(whole, Some(fraction), milli)) => whole + ['.'] + (fraction + Suffix(milli))
    case Some(Seconds(whole, None, milli)) => whole + [Suffix(milli)[0]] + Suffix(milli)[1..]
  }

  function Printed(r: Reading): string {
    Unit(r.hours, 'h') + (Unit(r.mins, 'm') + SecondsText(r.secs))
  }

  // ---------------------------------------------------------------- the scanner

  /** A number followed by the unit, unless the text after it forbids it, and the rest of the text. */
  function TakeUnit(s: string, unit: char, forbidden: char): (Option<string>, string) {
    var n := Span(s);
    if 0 < n < |s| && s[n] == unit && !(n + 1 < |s| && s[n + 1] == forbidden) then (Some(s[..n]), s[n + 1..])
    else (None, s)
  }

  function UnitSuffix(s: string): Option<bool> {
    if s == "s" then Some(false) else if s == "ms" then Some(true) else None
  }

  /** The text after a decimal point: digits and the suffix. */
  function TakeFraction(s: string): Option<(string, bool)> {
    var m := Span(s);
    var unit := UnitSuffix(s[m..]);
    if m == 0 || unit.None? then None else Some((s[..m], unit.value))
  }

  /** The whole text as seconds. */
  function TakeSeconds(s: string): Option<Seconds> {
    var n := Span(s);
    if n == 0 || n == |s| then None
    else if s[n] == '.' then
      match TakeFraction(s[n + 1..])
      case Some((fraction, milli)) => Some(Seconds(s[..n], Some(fraction), milli))
      case None => None
    else
      match UnitSuffix(s[n..])
      case Some(milli) => Some(Seconds(s[..n], None, milli))
      case None => None
  }

  /** The reading of a lower-case text, if there is one. */
  function ReadUnits(s: string): Option<Reading> {
    var (hours, afterHours) := TakeUnit(s, 'h', 'h');
    var (mins, afterMins) := TakeUnit(afterHours, 'm', 's');
    if afterMins == "" then Some(Reading(hours, mins, None))
    else
      var secs := TakeSeconds(afterMins);
      if secs.Some? then Some(Reading(hours, mins, secs)) else None
  }

  lemma TakeUnitFinds(digits: string, unit: char, forbidden: char, rest: string)
    requires Digits(digits) && !IsDigit(unit) && !(rest != "" && rest[0] == forbidden)
    ensures TakeUnit(digits + [unit] + rest, unit, forbidden) == (Some(digits), rest)
  {
    SpanSplits(digits, unit, rest);
    var s, n := digits + [unit] + rest, |digits|;
    assert n + 1 < |s| ==> s[n + 1] == s[n + 1..][0];
  }

  lemma SecondsStart(s: Seconds)
    requires WellFormed(Reading(None, None, Some(s)))
    ensures var text := SecondsText(Some(s));
            && text != "" && IsDigit(text[0]) && Span(text) == |s.whole| < |text|
            && text[|s.whole|] in {'.', 's', 'm'}
            && (text[|s.whole|] == 'm' ==> |s.whole| + 1 < |text| && text[|s.whole| + 1] == 's')
  {
    var text := SecondsText(Some(s));
    if s.fraction.Some? {
      SpanSplits(s.whole, '.', s.fraction.value + Suffix(s.milli));
    } else {
      SpanSplits(s.whole, Suffix(s.milli)[0], Suffix(s.milli)[1..]);
    }
    assert text[0] == s.whole[0];
  }

  lemma TakeFractionFinds(f: string, milli: bool)
    requires Digits(f)
    ensures TakeFraction(f + Suffix(milli)) == Some((f, milli))
  {
    SpanOf(f, Suffix(milli));
    assert (f + Suffix(milli))[..|f|] == f && (f + Suffix(milli))[|f|..] == Suffix(milli);
  }

  lemma TakeSecondsFinds(s: Seconds)
    requires WellFormed(Reading(None, None, Some(s)))
    ensures TakeSeconds(SecondsText(Some(s))) == Some(s)
  {
    var unit := Suffix(s.milli);
    if s.fraction.Some? {
      SpanSplits(s.whole, '.', s.fraction.value + unit);
      TakeFractionFinds(s.fraction.value, s.milli);
      hide TakeFraction;
    } else {
      SpanSplits(s.whole, unit[0], unit[1..]);
      assert [unit[0]] + unit[1..] == unit;
    }
  }

  lemma MinutesFound(r: Reading)
    requires WellFormed(r)
    ensures TakeUnit(Unit(r.mins, 'm') + SecondsText(r.secs), 'm', 's') == (r.mins, SecondsText(r.secs))
  {
    var secs := SecondsText(r.secs);
    if r.secs.Some? {
      SecondsStart(r.secs.value);
    }
    if r.mins.Some? {
      TakeUnitFinds(r.mins.value, 'm', 's', secs);
    } else {
      assert Unit(r.mins, 'm') + secs == secs;
    }
  }

  lemma HoursFound(r: Reading)
    requires WellFormed(r)
    ensures var minsOn := Unit(r.mins, 'm') + SecondsText(r.secs);
            TakeUnit(Unit(r.hours, 'h') + minsOn, 'h', 'h') == (r.hours, minsOn)
  {
    var secs := SecondsText(r.secs);
    var minsOn := Unit(r.mins, 'm') + secs;
    if r.secs.Some? {
      SecondsStart(r.secs.value);
    }
    if r.mins.Some? {
      SpanSplits(r.mins.value, 'm', secs);
      assert minsOn == r.mins.value + ['m'] + secs;
      assert minsOn[0] == r.mins.value[0];
    } else {
      assert minsOn == secs;
    }
    if r.hours.Some? {
      TakeUnitFinds(r.hours.value, 'h', 'h', minsOn);
    } else {
      assert Unit(r.hours, 'h') + minsOn == minsOn;
    }
  }

  /** Complete: the scanner finds every reading from its text. */
  lemma ScannerComplete(r: Reading)
    requires WellFormed(r)
    ensures ReadUnits(Printed(r)) == Some(r)
  {
    HoursFound(r);
    MinutesFound(r);
    if r.secs.Some? {
      SecondsStart(r.secs.value);
      TakeSecondsFinds(r.secs.value);
    }
    hide TakeUnit, TakeSeconds, Unit, SecondsText;
  }

  lemma TakeUnitSound(s: string, unit: char, forbidden: char)
    ensures var (digits, rest) := TakeUnit(s, unit, forbidden);
            s == Unit(digits, unit) + rest && (digits.Some? ==> Digits(digits.value))
  {
  }

  lemma SuffixSound(s: string)
    requires UnitSuffix(s).Some?
    ensures s == Suffix(UnitSuffix(s).value) == [s[0]] + s[1..]
  {
  }

  lemma WholeSecondsSound(s: string)
    requires TakeSeconds(s).Some? && s[Span(s)] != '.'
    ensures SecondsText(TakeSeconds(s)) == s
  {
    var n := Span(s);
    SuffixSound(s[n..]);
    assert s == s[..n] + [s[n]] + s[n..][1..];
  }

  lemma TakeFractionSound(s: string)
    requires TakeFraction(s).Some?
    ensures s == TakeFraction(s).value.0 + Suffix(TakeFraction(s).value.1) && Digits(TakeFraction(s).value.0)
  {
    SuffixSound(s[Span(s)..]);
  }

  lemma FractionSound(s: string)
    requires TakeSeconds(s).Some? && s[Span(s)] == '.'
    ensures SecondsText(TakeSeconds(s)) == s
    ensures Digits(TakeSeconds(s).value.fraction.value)
  {
    var n := Span(s);
    var f := TakeFraction(s[n + 1..]).value;
    TakeFractionSound(s[n + 1..]);
    SplitAt(s, n);
    assert TakeSeconds(s) == Some(Seconds(s[..n], Some(f.0), f.1));
    hide TakeFraction, TakeSeconds, Suffix, Span;
  }

  lemma SplitAt(s: string, n: nat)
    requires n < |s|
    ensures s == s[..n] + [s[n]] + s[n + 1..]
  {
  }

  lemma TakeSecondsSound(s: string)
    requires TakeSeconds(s).Some?
    ensures SecondsText(TakeSeconds(s)) == s && WellFormed(Reading(None, None, TakeSeconds(s)))
  {
    if s[Span(s)] == '.' {
      FractionSound(s);
    } else {
      WholeSecondsSound(s);
    }
    hide SecondsText;
  }

  /** Sound: what the scanner finds is a reading of the text. */
  lemma ScannerSound(s: string)
    requires ReadUnits(s).Some?
    ensures WellFormed(ReadUnits(s).value) && Printed(ReadUnits(s).value) == s
  {
    var (hours, afterHours) := TakeUnit(s, 'h', 'h');
    var (mins, afterMins) := TakeUnit(afterHours, 'm', 's');
    TakeUnitSound(s, 'h', 'h');
    TakeUnitSound(afterHours, 'm', 's');
    if afterMins != "" {
      TakeSecondsSound(afterMins);
    }
    hide TakeUnit, TakeSeconds, Unit, SecondsText;
  }

  /** The grammar is unambiguous: no text has two readings. */
  lemma AtMostOneReading(r: Reading, r': Reading)
    requires WellFormed(r) && WellFormed(r') && Printed(r) == Printed(r')
    ensures r == r'
  {
    ScannerComplete(r);
    ScannerComplete(r');
  }

  // ---------------------------------------------------------------- values

  function SecondsValue(s: Seconds): real
    requires Digits(s.whole) && (s.fraction.Some? ==> Digits(s.fraction.value))
  {
    var value := DigitsValue(s.whole) as real + FractionOf(s.fraction);
    if s.milli then value / 1000.0 else value
  }

  function Duration(r: Reading): real
    requires WellFormed(r)
  {
    (if r.hours.Some? then DigitsValue(r.hours.value) as real * 3600.0 else 0.0) +
    (if r.mins.Some? then DigitsValue(r.mins.value) as real * 60.0 else 0.0) +
    (if r.secs.Some? then SecondsValue(r.secs.value) else 0.0)
  }

  // ---------------------------------------------------------------- the parser

  datatype Number = NaN | PosInfinity | NegInfinity | Finite(value: real)

  datatype Wait = Forever | For(seconds: real)

  /** Python's float() and date parser, and the time of day, in seconds since the epoch. */
  datatype Environment = Environment(float: string -> Option<Number>, date: string -> Option<real>, now: real)

  const UNIX_SECONDS_FLOOR := 1000000000.0
  const UNIX_MS_FLOOR := 1000000000000.0

  predicate IsSpace(c: char) {
    c == ' ' || '\t' <= c <= '\r' || '\U{1c}' <= c <= '\U{1f}'
  }

  function Strip(s: string): string {
    if s == "" then s
    else if IsSpace(s[0]) then Strip(s[1..])
    else if IsSpace(s[|s| - 1]) then Strip(s[..|s| - 1])
    else s
  }

  function LowerChar(c: char): char {
    if 'A' <= c <= 'Z' then (c as int + 32) as char else c
  }

  function Lower(s: string): string {
    seq(|s|, i requires 0 <= i < |s| => LowerChar(s[i]))
  }

  function FloatOf(env: Environment, text: string): Option<Number> {
    if Digits(text) then Some(Finite(DigitsValue(text) as real)) else env.float(text)
  }

  function NumberWait(num: real, now: real): real {
    if num >= UNIX_MS_FLOOR then Max(0.0, num / 1000.0 - now)
    else if num >= UNIX_SECONDS_FLOOR then Max(0.0, num - now)
    else Max(0.0, num)
  }

  function DateWait(env: Environment, text: string): real {
    match env.date(text)
    case Some(t) => Max(0.0, t - env.now)
    case None => 0.0
  }

  function ParseDuration(env: Environment, value: string): Wait {
    var text := Strip(value);
    if text == "" then For(0.0)
    else
      var reading := ReadUnits(Lower(text));
      if reading.Some? then
        (ScannerSound(Lower(text));
         For(Duration(reading.value)))
      else
        match FloatOf(env, text)
        case Some(Finite(num)) => For(NumberWait(num, env.now))
        case Some(PosInfinity) => Forever
        case Some(NegInfinity) => For(0.0)
        case _ => For(DateWait(env, text))
  }

  // ---------------------------------------------------------------- properties

  lemma SecondsNonNegative(s: Seconds)
    requires Digits(s.whole) && (s.fraction.Some? ==> Digits(s.fraction.value))
    ensures SecondsValue(s) >= 0.0
  {
    if s.fraction.Some? {
      var d := s.fraction.value;
      Pow10Positive(|d|);
      QuotientNonNegative(DigitsValue(d) as real, Pow10(|d|) as real);
    }
    hide DigitsValue, Pow10, Digits;
  }

  lemma QuotientNonNegative(x: real, y: real)
    requires x >= 0.0 && y > 0.0
    ensures x / y >= 0.0
  {
  }

  lemma DurationNonNegative(r: Reading)
    requires WellFormed(r)
    ensures Duration(r) >= 0.0
  {
    if r.secs.Some? {
      SecondsNonNegative(r.secs.value);
    }
    hide SecondsValue, DigitsValue;
  }

  lemma NumberWaitNonNegative(num: real, now: real)
    ensures NumberWait(num, now) >= 0.0
  {
  }

  /** Every header value gives a wait that is not negative. */
  lemma WaitIsNonNegative(env: Environment, value: string)
    ensures ParseDuration(env, value).For? ==> ParseDuration(env, value).seconds >= 0.0
  {
    hide ReadUnits, Strip, Lower, Duration, NumberWait, FloatOf, Printed, WellFormed;
    var text := Strip(value);
    var reading := ReadUnits(Lower(text));
    if reading.Some? {
      ScannerSound(Lower(text));
      DurationNonNegative(reading.value);
    }
    forall num { NumberWaitNonNegative(num, env.now); }
  }

  /** A text has no space around it, and it is its own lower case. */
  predicate Plain(s: string) {
    forall i | 0 <= i < |s| :: !IsSpace(s[i]) && LowerChar(s[i]) == s[i]
  }

  lemma PlainAppends(a: string, b: string)
    requires Plain(a) && Plain(b)
    ensures Plain(a + b)
  {
  }

  lemma SecondsArePlain(s: Seconds)
    requires WellFormed(Reading(None, None, Some(s)))
    ensures Plain(SecondsText(Some(s)))
  {
    var unit := Suffix(s.milli);
    if s.fraction.Some? {
      PlainAppends(s.fraction.value, unit);
      PlainAppends(s.whole, ['.']);
      PlainAppends(s.whole + ['.'], s.fraction.value + unit);
    } else {
      PlainAppends(s.whole, [unit[0]]);
      PlainAppends(s.whole + [unit[0]], unit[1..]);
    }
  }

  lemma PrintedIsPlain(r: Reading)
    requires WellFormed(r)
    ensures Plain(Printed(r))
    ensures r != Reading(None, None, None) ==> Printed(r) != ""
  {
    if r.secs.Some? {
      SecondsArePlain(r.secs.value);
      SecondsStart(r.secs.value);
    }
    var secs := SecondsText(r.secs);
    assert r.secs.None? ==> secs == "";
    hide SecondsText;
    if r.hours.Some? {
      PlainAppends(r.hours.value, ['h']);
    }
    if r.mins.Some? {
      PlainAppends(r.mins.value, ['m']);
    }
    PlainAppends(Unit(r.mins, 'm'), secs);
    PlainAppends(Unit(r.hours, 'h'), Unit(r.mins, 'm') + secs);
  }

  lemma PlainIsFixed(s: string)
    requires Plain(s)
    ensures Strip(s) == s && Lower(s) == s
  {
  }

  /** The number that optional digits stand for. */
  function ValueOf(n: Option<nat>): real {
    if n.Some? then n.value as real else 0.0
  }

  function TextOf(n: Option<nat>): Option<string> {
    if n.Some? then Some(NatText(n.value)) else None
  }

  /** The fraction that optional digits after the point stand for. */
  function FractionOf(digits: Option<string>): real
    requires digits.Some? ==> Digits(digits.value)
  {
    match digits
    case None => 0.0
    case Some(d) =>
      Pow10Positive(|d|);
      DigitsValue(d) as real / Pow10(|d|) as real
  }

  /** Hours, minutes and (milli)seconds, any of which may be absent, as the reading that prints them. */
  function ReadingOf(h: Option<nat>, m: Option<nat>, s: Option<nat>, fraction: Option<string>, milli: bool): Reading {
    Reading(TextOf(h), TextOf(m), if s.Some? then Some(Seconds(NatText(s.value), fraction, milli)) else None)
  }

  lemma DurationOfReading(h: Option<nat>, m: Option<nat>, s: Option<nat>, fraction: Option<string>, milli: bool)
    requires fraction.Some? ==> Digits(fraction.value)
    ensures var secs := if s.Some? then s.value as real + FractionOf(fraction) else 0.0;
            Duration(ReadingOf(h, m, s, fraction, milli)) ==
            3600.0 * ValueOf(h) + 60.0 * ValueOf(m) + (if milli then secs / 1000.0 else secs)
  {
    if h.Some? { NatTextValue(h.value); }
    if m.Some? { NatTextValue(m.value); }
    if s.Some? { NatTextValue(s.value); }
  }

  /**
   Round trip: any choice of hours, minutes and seconds or milliseconds, with or without a decimal
   fraction, printed in that order, is read back as 3600 h + 60 m + s.
   */
  lemma DurationRoundTrip(env: Environment, h: Option<nat>, m: Option<nat>, s: Option<nat>,
                          fraction: Option<string>, milli: bool)
    requires h.Some? || m.Some? || s.Some?
    requires fraction.Some? ==> Digits(fraction.value)
    ensures var secs := if s.Some? then s.value as real + FractionOf(fraction) else 0.0;
            ParseDuration(env, Printed(ReadingOf(h, m, s, fraction, milli))) ==
            For(3600.0 * ValueOf(h) + 60.0 * ValueOf(m) + (if milli then secs / 1000.0 else secs))
  {
    var r := ReadingOf(h, m, s, fraction, milli);
    DurationOfReading(h, m, s, fraction, milli);
    PrintedParses(env, r);
    hide *;
  }

  lemma PrintedParses(env: Environment, r: Reading)
    requires WellFormed(r) && r != Reading(None, None, None)
    ensures ParseDuration(env, Printed(r)) == For(Duration(r))
  {
    ScannerComplete(r);
    PrintedIsPlain(r);
    PlainIsFixed(Printed(r));
  }

  /** The text of a reading ends in a letter. */
  lemma ReadingEndsInLetter(r: Reading)
    requires WellFormed(r) && Printed(r) != ""
    ensures !IsDigit(Printed(r)[|Printed(r)| - 1])
  {
  }

  /**
   A delay-seconds value (section 10.2.3 of RFC 9110) reads as itself exactly when it is below
   10^9; from there on it is taken for a point in time.
   */
  lemma DelaySecondsIff(env: Environment, value: string)
    requires Digits(value) && env.now > 0.0
    ensures ParseDuration(env, value) == For(DigitsValue(value) as real) <==> DigitsValue(value) < 1000000000
  {
    PlainIsFixed(value);
    if ReadUnits(value).Some? {
      ScannerSound(value);
      ReadingEndsInLetter(ReadUnits(value).value);
    }
  }

  /**
   What a number that is not a reading of units waits: nothing below zero, itself below 10^9, and from
   there on until that point in time, in seconds since the epoch, or in milliseconds from 10^12 on.
   */
  lemma NumberReads(env: Environment, value: string, x: real)
    requires Strip(value) != "" && ReadUnits(Lower(Strip(value))).None?
    requires FloatOf(env, Strip(value)) == Some(Finite(x))
    ensures x < 0.0 ==> ParseDuration(env, value) == For(0.0)
    ensures 0.0 <= x < 1000000000.0 ==> ParseDuration(env, value) == For(x)
    ensures 1000000000.0 <= x < 1000000000000.0 ==>
              ParseDuration(env, value) == For(if x > env.now then x - env.now else 0.0)
    ensures x >= 1000000000000.0 ==>
              ParseDuration(env, value) == For(if x / 1000.0 > env.now then x / 1000.0 - env.now else 0.0)
  {
    hide ReadUnits, FloatOf, Strip, Lower, Duration;
  }

  /** What is neither a reading nor a number is read as a date, if it is one; infinity waits forever. */
  lemma OtherTextReads(env: Environment, value: string)
    requires Strip(value) != "" && ReadUnits(Lower(Strip(value))).None?
    ensures FloatOf(env, Strip(value)) == None || FloatOf(env, Strip(value)) == Some(NaN) ==>
              ParseDuration(env, value) ==
              For(match env.date(Strip(value))
                  case Some(t) => if t > env.now then t - env.now else 0.0
                  case None => 0.0)
    ensures FloatOf(env, Strip(value)) == Some(PosInfinity) ==> ParseDuration(env, value) == Forever
    ensures FloatOf(env, Strip(value)) == Some(NegInfinity) ==> ParseDuration(env, value) == For(0.0)
  {
    hide ReadUnits, FloatOf, Strip, Lower, Duration;
  }

  lemma {:induction false} StripsSpace(s: string) returns (before: string, after: string)
    ensures s == before + Strip(s) + after && forall c | c in before + after :: IsSpace(c)
    ensures Strip(s) != "" ==> !IsSpace(Strip(s)[0]) && !IsSpace(Strip(s)[|Strip(s)| - 1])
    decreases |s|
  {
    hide IsSpace;
    before, after := "", "";
    if s == "" {
    } else if IsSpace(s[0]) {
      var b, a := StripsSpace(s[1..]);
      before, after := [s[0]] + b, a;
      assert before + after == [s[0]] + (b + a);
    } else if IsSpace(s[|s| - 1]) {
      var b, a := StripsSpace(s[..|s| - 1]);
      before, after := b, a + [s[|s| - 1]];
      assert before + after == b + a + [s[|s| - 1]];
    }
  }

  /** Stripping takes the space off both ends, all of it and nothing else. */
  lemma StripIs(s: string) returns (before: string, after: string)
    ensures s == before + Strip(s) + after && forall c | c in before + after :: IsSpace(c)
    ensures Strip(s) != "" ==> !IsSpace(Strip(s)[0]) && !IsSpace(Strip(s)[|Strip(s)| - 1])
    ensures forall c :: IsSpace(c) <==> c == ' ' || '\t' <= c <= '\r' || '\U{1c}' <= c <= '\U{1f}'
  {
    hide Strip;
    before, after := StripsSpace(s);
  }

  /** Space around a duration and the case of its units do not matter, nor does space without a text. */
  lemma SpaceAndCaseIgnored(env: Environment, value: string, r: Reading)
    requires WellFormed(r) && r != Reading(None, None, None)
    requires Strip(value) != "" && |Strip(value)| == |Printed(r)|
    requires forall i | 0 <= i < |Printed(r)| ::
               var c := Strip(value)[i];
               Printed(r)[i] == if 'A' <= c <= 'Z' then (c as int + 32) as char else c
    ensures ParseDuration(env, value) == For(Duration(r))
    ensures forall blank | Strip(blank) == "" :: ParseDuration(env, blank) == For(0.0)
  {
    assert Lower(Strip(value)) == Printed(r);
    ScannerComplete(r);
    hide Strip, ReadUnits, Printed, Lower;
  }
}
