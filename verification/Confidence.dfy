/** The confidence of an indicator edge (backend/correlation/confidence.py). */
module Confidence {
  import opened Options
  import opened Freshness

  // ---------------------------------------------------------------- levels

  function LevelAt(index: int): Level {
    if index <= 0 then Low else if index == 1 then Medium else High
  }

  function BumpConfidence(level: Level, steps: nat, cap: Level): Level {
    var raised := level.Index() + steps;
    LevelAt(if raised <= cap.Index() then raised else cap.Index())
  }

  function DownrankConfidence(level: Level, steps: nat, floor: Level): Level {
    var lowered := level.Index() - steps;
    LevelAt(if lowered >= floor.Index() then lowered else floor.Index())
  }

  function MinLevel(a: Level, b: Level): Level {
    if a.Index() <= b.Index() then a else b
  }

  // ---------------------------------------------------------------- edges

  datatype Confirmations = Confirmations(greynoise: string, malwarebazaar: bool, urlhausActive: bool)

  /** iocType is in upper case; the times are in days. */
  datatype Edge = Edge(
    iocType: string,
    confirmations: Confirmations,
    isNoiseIp: bool,
    degree: int,
    observed: Option<real>,
    ingested: Option<real>,
    corroboratedBy: seq<string>)

  predicate GreynoiseBenign(c: Confirmations) {
    c.greynoise == "benign" || c.greynoise == "riot"
  }

  predicate IsNoise(e: Edge) {
    e.iocType == "IP" && e.isNoiseIp
  }

  function TypeLevel(iocType: string): Level {
    if iocType == "HASH" then High
    else if iocType == "DOMAIN" || iocType == "URL" then Medium
    else Low
  }

  function GreynoiseLevel(level: Level, c: Confirmations): Level {
    if c.greynoise == "malicious" then BumpConfidence(level, 1, High)
    else if GreynoiseBenign(c) then DownrankConfidence(level, 1, Low)
    else level
  }

  /** The level that the type and the confirmations give. */
  function ConfirmedLevel(e: Edge): Level {
    var l1 := GreynoiseLevel(TypeLevel(e.iocType), e.confirmations);
    var l2 := if e.confirmations.malwarebazaar then BumpConfidence(l1, 1, High) else l1;
    if e.confirmations.urlhausActive then BumpConfidence(l2, 1, High) else l2
  }

  /** The level of the rules: the confirmed level, lowered for a shared indicator. */
  function RuleLevel(e: Edge): Level {
    if e.degree > 10 then Low
    else if e.degree > 3 then DownrankConfidence(ConfirmedLevel(e), 1, Low)
    else ConfirmedLevel(e)
  }

  function Prefix(receipt: string): string {
    if receipt == "" || receipt[0] == ':' then "" else [receipt[0]] + Prefix(receipt[1..])
  }

  /** The sources that the receipts name; a receipt without a colon names none. */
  function Sources(receipts: seq<string>): set<string> {
    set r | r in receipts && ':' in r :: Prefix(r)
  }

  function CorroborationK(receipts: seq<string>): real {
    var sources, count := |Sources(receipts)|, |receipts|;
    1.0 + sources as real + 0.5 * (if count > sources then count - sources else 0) as real
  }

  function EdgeNumericLevel(fs: Functions, config: DecayConfig, e: Edge, now: real): Level
    requires Lawful(fs)
  {
    NumericLevel(fs, e.iocType, e.degree, FreshnessFactor(fs, config, e.iocType, e.observed, now),
                 CorroborationK(e.corroboratedBy))
  }

  /** The final level: the numeric level lowers the rules, and raises them only with a receipt. */
  function EdgeLevel(fs: Functions, config: DecayConfig, e: Edge, now: real): Level
    requires Lawful(fs)
  {
    if IsNoise(e) then Low
    else
      var rule, numeric := RuleLevel(e), EdgeNumericLevel(fs, config, e, now);
      if numeric.Index() < rule.Index() then numeric
      else if e.corroboratedBy != [] && numeric.Index() > rule.Index() then numeric
      else rule
  }

  // ---------------------------------------------------------------- the procedure

  /** Why a level is not higher. */
  datatype Reason = NoiseIp | BenignNoise | IpOnly | SharedHub | Freshness

  datatype Factor =
    | NoiseIpFactor
    | TypeFactor(iocType: string)
    | GreynoiseMalicious
    | GreynoiseBenignFactor
    | MalwareBazaar
    | UrlhausActive
    | IpOnlyFactor
    | DegreeFactorOf(degree: int)
    | CorroborationOf(value: real, sources: nat, receipts: nat)
    | FreshnessOf(value: real, fallback: bool)

  /** The reason that a factor gives why the level is not higher, if it gives one. */
  function ReasonOf(f: Factor): Option<Reason> {
    match f
    case NoiseIpFactor => Some(NoiseIp)
    case GreynoiseBenignFactor => Some(BenignNoise)
    case IpOnlyFactor => Some(IpOnly)
    case DegreeFactorOf(_) => Some(SharedHub)
    case FreshnessOf(_, _) => Some(Reason.Freshness)
    case _ => None
  }

  /** The hub lowers what the confirmations gave. */
  predicate HubLowers(e: Edge) {
    e.degree > 10 || (e.degree > 3 && RuleLevel(e) != ConfirmedLevel(e))
  }

  /** What the rules leave as the reason. */
  function RuleReason(e: Edge): Option<Reason> {
    if HubLowers(e) then Some(SharedHub)
    else if e.confirmations.greynoise != "malicious" && GreynoiseBenign(e.confirmations) then Some(BenignNoise)
    else if e.iocType == "IP" && ConfirmedLevel(e) == Low then Some(IpOnly)
    else None
  }

  /** The reason that is returned with the level. */
  function EdgeReason(fs: Functions, config: DecayConfig, e: Edge, now: real): Option<Reason>
    requires Lawful(fs)
  {
    var rule, numeric := RuleLevel(e), EdgeNumericLevel(fs, config, e, now);
    if IsNoise(e) then Some(NoiseIp)
    else if numeric.Index() < rule.Index() then Some(Freshness)
    else if e.corroboratedBy != [] && numeric.Index() > rule.Index() && numeric == High then None
    else RuleReason(e)
  }

  /**
   The documentation says that the reason is that of the last factor, which is noise or freshness.
   It is so exactly for noise, and when the numeric level lowered the rules.
   */
  lemma LastFactorExplainsIff(fs: Functions, config: DecayConfig, e: Edge, now: real)
    requires Lawful(fs)
    ensures EdgeReason(fs, config, e, now) == Some(if IsNoise(e) then NoiseIp else Reason.Freshness) <==>
            IsNoise(e) || EdgeNumericLevel(fs, config, e, now).Index() < RuleLevel(e).Index()
  {
    hide RuleLevel, EdgeNumericLevel, HubLowers, ConfirmedLevel;
  }

  method SourcesOf(receipts: seq<string>) returns (sources: set<string>)
    ensures sources == Sources(receipts)
  {
    sources := {};
    for i := 0 to |receipts|
      invariant sources == Sources(receipts[..i])
    {
      assert receipts[..i + 1] == receipts[..i] + [receipts[i]];
      if ':' in receipts[i] {
        sources := sources + {Prefix(receipts[i])};
      }
    }
    assert receipts[..|receipts|] == receipts;
  }

  /** The type and the confirmations. */
  method ConfirmedConfidence(e: Edge) returns (level: Level, why: Option<Reason>, factors: seq<Factor>)
    requires !IsNoise(e)
    ensures level == ConfirmedLevel(e)
    ensures why == if e.confirmations.greynoise != "malicious" && GreynoiseBenign(e.confirmations)
                   then Some(BenignNoise) else None
    ensures factors != [] && factors[0] == TypeFactor(e.iocType)
    ensures forall f | f in factors :: !f.DegreeFactorOf? && !f.CorroborationOf? && !f.FreshnessOf?
  {
    if e.iocType == "HASH" {
      level := High;
    } else if e.iocType == "DOMAIN" {
      level := Medium;
    } else if e.iocType == "URL" {
      level := Medium;
    } else {
      level := Low;
    }
    factors := [TypeFactor(e.iocType)];
    why := None;
    if e.confirmations.greynoise == "malicious" {
      level := BumpConfidence(level, 1, High);
      factors := factors + [GreynoiseMalicious];
    } else if e.confirmations.greynoise == "benign" || e.confirmations.greynoise == "riot" {
      level := DownrankConfidence(level, 1, Low);
      why := Some(BenignNoise);
      factors := factors + [GreynoiseBenignFactor];
    }
    if e.confirmations.malwarebazaar {
      level := BumpConfidence(level, 1, High);
      factors := factors + [MalwareBazaar];
    }
    if e.confirmations.urlhausActive {
      level := BumpConfidence(level, 1, High);
      factors := factors + [UrlhausActive];
    }
  }

  /** The part of confidence_for_ioc_edge before the numeric score: type, confirmations, degree. */
  method RuleConfidence(e: Edge) returns (level: Level, why: Option<Reason>, factors: seq<Factor>)
    requires !IsNoise(e)
    ensures level == RuleLevel(e) && why == RuleReason(e)
    ensures factors != [] && factors[0] == TypeFactor(e.iocType)
    ensures DegreeFactorOf(e.degree) in factors <==> HubLowers(e)
    ensures forall f | f in factors :: !f.CorroborationOf? && !f.FreshnessOf?
  {
    level, why, factors := ConfirmedConfidence(e);
    hide ConfirmedLevel;
    if e.iocType == "IP" && level == Low && why.None? {
      why := Some(IpOnly);
      factors := factors + [IpOnlyFactor];
    }
    if e.degree > 10 {
      why := Some(SharedHub);
      level := Low;
      factors := factors + [DegreeFactorOf(e.degree)];
    } else if e.degree > 3 {
      var downranked := DownrankConfidence(level, 1, Low);
      if downranked != level {
        why := Some(SharedHub);
        factors := factors + [DegreeFactorOf(e.degree)];
      }
      level := downranked;
    }
  }

  /** confidence_for_ioc_edge: the level, the reason, and the factors in the order they were met. */
  method ConfidenceForIocEdge(fs: Functions, config: DecayConfig, e: Edge, now: real)
    returns (level: Level, why: Option<Reason>, factors: seq<Factor>)
    requires Lawful(fs)
    ensures level == EdgeLevel(fs, config, e, now)
    ensures why == EdgeReason(fs, config, e, now)
    ensures IsNoise(e) ==> factors == [NoiseIpFactor]
    ensures !IsNoise(e) ==>
      && |factors| >= 3 && factors[0] == TypeFactor(e.iocType)
      && factors[|factors| - 2] == CorroborationOf(CorroborationFactor(fs, CorroborationK(e.corroboratedBy)),
                                                   |Sources(e.corroboratedBy)|, |e.corroboratedBy|)
      && factors[|factors| - 1] ==
         FreshnessOf(FreshnessFactor(fs, config, e.iocType, e.observed, now), e.observed.None?)
      && (DegreeFactorOf(e.degree) in factors <==> HubLowers(e))
    ensures factors != [] && (why == ReasonOf(factors[|factors| - 1]) <==>
                              IsNoise(e) || EdgeNumericLevel(fs, config, e, now).Index() < RuleLevel(e).Index())
  {
    LastFactorExplainsIff(fs, config, e, now);
    if e.iocType == "IP" && e.isNoiseIp {
      return Low, Some(NoiseIp), [NoiseIpFactor];
    }
    hide RuleLevel, RuleReason, CorroborationFactor, FreshnessFactor, NumericLevel, HubLowers;
    level, why, factors := RuleConfidence(e);
    var freshness := FreshnessFactor(fs, config, e.iocType, e.observed, now);
    var sources := SourcesOf(e.corroboratedBy);
    var kSources, kReceipts := |sources|, |e.corroboratedBy|;
    var k := 1.0 + kSources as real + 0.5 * (if kReceipts > kSources then kReceipts - kSources else 0) as real;
    var freshLevel := NumericLevel(fs, e.iocType, e.degree, freshness, k);
    if freshLevel.Index() < level.Index() {
      level := freshLevel;
      why := Some(Reason.Freshness);
    } else if e.corroboratedBy != [] && freshLevel.Index() > level.Index() {
      level := freshLevel;
      if level == High {
        why := None;
      }
    }
    factors := factors + [CorroborationOf(CorroborationFactor(fs, k), kSources, kReceipts),
                          FreshnessOf(freshness, e.observed.None?)];
  }

  // ---------------------------------------------------------------- the rules in numbers

  /**
   The level of the rules as a number: the type gives 2, 1 or 0, GreyNoise adds or takes one, each
   further confirmation adds one, all within 0 and 2; a hub of more than three CVEs takes one, and
   one of more than ten everything.
   */
  lemma RuleLevelIs(e: Edge)
    ensures
      var type_ := if e.iocType == "HASH" then 2 else if e.iocType == "DOMAIN" || e.iocType == "URL" then 1 else 0;
      var seen := e.confirmations.greynoise;
      var noise := type_ + if seen == "malicious" then 1 else if seen == "benign" || seen == "riot" then -1 else 0;
      var confirmed := (if noise < 0 then 0 else if noise > 2 then 2 else noise)
                       + (if e.confirmations.malwarebazaar then 1 else 0)
                       + (if e.confirmations.urlhausActive then 1 else 0);
      var capped := if confirmed > 2 then 2 else confirmed;
      && ConfirmedLevel(e).Index() == capped
      && (e.degree <= 3 ==> RuleLevel(e).Index() == capped)
      && (3 < e.degree <= 10 ==> RuleLevel(e).Index() == if capped == 0 then 0 else capped - 1)
      && (e.degree > 10 ==> RuleLevel(e).Index() == 0)
  {
  }

  /**
   Which reason is given why the level is not higher: noise for a noisy address; otherwise freshness
   when the score lowered the rules; and unless a receipt raised the level to high, the hub when more
   than ten CVEs share the indicator, or more than three and it had a level to lose; or else that
   GreyNoise calls it benign; or else that it is an address.
   */
  lemma ReasonIff(fs: Functions, config: DecayConfig, e: Edge, now: real)
    requires Lawful(fs)
    ensures
      var why := EdgeReason(fs, config, e, now);
      var seen, numeric := e.confirmations.greynoise, EdgeNumericLevel(fs, config, e, now);
      var noise := e.iocType == "IP" && e.isNoiseIp;
      var lowered := numeric.Index() < RuleLevel(e).Index();
      var cleared := e.corroboratedBy != [] && numeric == High && RuleLevel(e) != High;
      var open := !noise && !lowered && !cleared;
      var hub := e.degree > 10 || (e.degree > 3 && ConfirmedLevel(e) != Low);
      var benign := seen == "benign" || seen == "riot";
      && (why == Some(NoiseIp) <==> noise)
      && (why == Some(Reason.Freshness) <==> !noise && lowered)
      && (why == Some(SharedHub) <==> open && hub)
      && (why == Some(BenignNoise) <==> open && !hub && benign)
      && (why == Some(IpOnly) <==> open && !hub && !benign && e.iocType == "IP" && ConfirmedLevel(e) == Low)
  {
    hide ConfirmedLevel, EdgeNumericLevel;
    assert |"malicious"| == 9 && |"benign"| == 6 && |"riot"| == 4;
  }

  /** What a receipt names is its text before the first colon. */
  lemma {:induction false} PrefixIs(receipt: string)
    requires ':' in receipt
    ensures var name := Prefix(receipt);
            |name| < |receipt| && name == receipt[..|name|] && receipt[|name|] == ':' && ':' !in name
  {
    if receipt[0] != ':' {
      PrefixIs(receipt[1..]);
      var name := Prefix(receipt[1..]);
      assert Prefix(receipt) == [receipt[0]] + name == receipt[..|name| + 1];
    }
  }

  /** The corroboration count: one, and half of the receipts and of the distinct sources together. */
  lemma CorroborationKIs(receipts: seq<string>)
    ensures CorroborationK(receipts) == 1.0 + (|receipts| + |Sources(receipts)|) as real / 2.0
    ensures forall name :: name in Sources(receipts) <==> exists r :: r in receipts && ':' in r && Prefix(r) == name
    ensures receipts != [] && (forall r | r in receipts :: ':' !in r) ==>
              CorroborationK(receipts) == 1.0 + |receipts| as real / 2.0
    ensures receipts != [] && (forall r | r in receipts :: ':' in r && Prefix(r) == Prefix(receipts[0])) ==>
              CorroborationK(receipts) == 1.5 + |receipts| as real / 2.0
  {
    SourcesAtMostReceipts(receipts);
    if receipts != [] && forall r | r in receipts :: ':' in r && Prefix(r) == Prefix(receipts[0]) {
      assert receipts[0] in receipts;
      assert Sources(receipts) == {Prefix(receipts[0])};
    }
    if receipts != [] && forall r | r in receipts :: ':' !in r {
      assert Sources(receipts) == {};
    }
  }

  // ---------------------------------------------------------------- closed form and monotonicity

  /**
   Apart from noise, the final level is the numeric level when there is any receipt, and the lower
   of the rule level and the numeric level when there is none.
   */
  lemma ClosedForm(fs: Functions, config: DecayConfig, e: Edge, now: real)
    requires Lawful(fs) && !IsNoise(e)
    ensures EdgeLevel(fs, config, e, now) ==
            if e.corroboratedBy != [] then EdgeNumericLevel(fs, config, e, now)
            else MinLevel(RuleLevel(e), EdgeNumericLevel(fs, config, e, now))
  {
  }

  lemma {:induction false} SourcesAtMostReceipts(receipts: seq<string>)
    ensures |Sources(receipts)| <= |receipts|
  {
    if receipts != [] {
      var n := |receipts| - 1;
      SourcesAtMostReceipts(receipts[..n]);
      assert receipts == receipts[..n] + [receipts[n]];
      assert Sources(receipts) <= Sources(receipts[..n]) + {Prefix(receipts[n])};
      SubsetCount(Sources(receipts), Sources(receipts[..n]) + {Prefix(receipts[n])});
    }
  }

  lemma {:induction false} SubsetCount(a: set<string>, b: set<string>)
    requires a <= b
    ensures |a| <= |b|
  {
    if a != {} {
      var x :| x in a;
      SubsetCount(a - {x}, b - {x});
    }
  }

  /** Adding receipts never lowers the corroboration count. */
  lemma CorroborationKGrows(receipts: seq<string>, more: seq<string>)
    ensures CorroborationK(receipts) <= CorroborationK(receipts + more)
    ensures CorroborationK(receipts) >= 1.0
    ensures receipts == [] ==> CorroborationK(receipts) == 1.0
  {
    SourcesAtMostReceipts(receipts);
    SourcesAtMostReceipts(receipts + more);
    assert Sources(receipts) <= Sources(receipts + more);
    SubsetCount(Sources(receipts), Sources(receipts + more));
  }

  lemma RuleLevelFalls(e: Edge, degree: int)
    requires e.degree <= degree
    ensures RuleLevel(e.(degree := degree)).Index() <= RuleLevel(e).Index()
  {
  }

  /** An indicator that more CVEs share never gets a higher level. */
  lemma LevelFallsWithDegree(fs: Functions, config: DecayConfig, e: Edge, degree: int, now: real)
    requires Lawful(fs) && e.degree <= degree
    ensures EdgeLevel(fs, config, e.(degree := degree), now).Index() <= EdgeLevel(fs, config, e, now).Index()
  {
    var f, k := FreshnessFactor(fs, config, e.iocType, e.observed, now), CorroborationK(e.corroboratedBy);
    FreshnessFactorRange(fs, config, e.iocType, e.observed, now);
    NumericLevelMonotone(fs, e.iocType, e.degree, f, k, degree, f, k);
    RuleLevelFalls(e, degree);
  }

  /** An older observation never gets a higher level. */
  lemma LevelFallsWithAge(fs: Functions, config: DecayConfig, e: Edge, older: real, now: real)
    requires Lawful(fs) && e.observed.Some? && older <= e.observed.value
    ensures EdgeLevel(fs, config, e.(observed := Some(older)), now).Index() <= EdgeLevel(fs, config, e, now).Index()
  {
    var k := CorroborationK(e.corroboratedBy);
    FreshnessFactorFalls(fs, config, e.iocType, older, e.observed.value, now);
    NumericLevelMonotone(fs, e.iocType,
      e.degree, FreshnessFactor(fs, config, e.iocType, e.observed, now), k,
      e.degree, FreshnessFactor(fs, config, e.iocType, Some(older), now), k);
  }

  /** Adding corroborating receipts, the first one included, never lowers the level. */
  lemma LevelGrowsWithReceipts(fs: Functions, config: DecayConfig, e: Edge, more: seq<string>, now: real)
    requires Lawful(fs)
    ensures EdgeLevel(fs, config, e.(corroboratedBy := e.corroboratedBy + more), now).Index()
            >= EdgeLevel(fs, config, e, now).Index()
  {
    var f := FreshnessFactor(fs, config, e.iocType, e.observed, now);
    FreshnessFactorRange(fs, config, e.iocType, e.observed, now);
    CorroborationKGrows(e.corroboratedBy, more);
    NumericLevelMonotone(fs, e.iocType, e.degree, f, CorroborationK(e.corroboratedBy + more),
                         e.degree, f, CorroborationK(e.corroboratedBy));
  }

  // ---------------------------------------------------------------- ceilings

  lemma AtMostNumeric(fs: Functions, config: DecayConfig, e: Edge, now: real)
    requires Lawful(fs)
    ensures EdgeLevel(fs, config, e, now).Index() <= EdgeNumericLevel(fs, config, e, now).Index()
  {
  }

  /** The score is at most the base times the degree factor. */
  lemma ScoreCeiling(fs: Functions, iocType: string, degree: int, freshness: real, k: real)
    requires Lawful(fs) && 0.0 <= freshness <= 1.0
    ensures EdgeScore(fs, iocType, degree, freshness, k) <= BaseScore(iocType) * DegreeFactor(fs, degree)
  {
    hide DegreeFactor, CorroborationFactor, BaseScore;
    BaseRange(iocType);
    DegreeFactorFalls(fs, degree, degree);
    CorroborationFactorGrows(fs, k, k);
    var b, d, c := BaseScore(iocType), DegreeFactor(fs, degree), CorroborationFactor(fs, k);
    ProductShrinks(b, d, freshness, c);
    calc {
      EdgeScore(fs, iocType, degree, freshness, k);
      b * d * freshness * c;
      <=
      b * d;
    }
  }

  lemma ProductShrinks(b: real, d: real, f: real, c: real)
    requires 0.0 <= b && 0.0 <= d && 0.0 <= f <= 1.0 && 0.0 <= c <= 1.0
    ensures b * d * f * c <= b * d
  {
    assert b * d >= 0.0;
    Shrinks(b * d, f);
    Shrinks(b * d * f, c);
  }

  lemma Shrinks(x: real, c: real)
    requires 0.0 <= x && 0.0 <= c <= 1.0
    ensures 0.0 <= x * c <= x
  {
    assert x * (1.0 - c) >= 0.0;
  }

  lemma BaseRange(iocType: string)
    ensures 0.0 < BaseScore(iocType) <= 0.9
  {
  }

  lemma EdgeScoreCeiling(fs: Functions, config: DecayConfig, e: Edge, now: real) returns (score: real)
    requires Lawful(fs)
    ensures EdgeNumericLevel(fs, config, e, now) == ScoreLevel(score)
    ensures score <= BaseScore(e.iocType) * DegreeFactor(fs, e.degree)
    ensures score <= BaseScore(e.iocType)
  {
    var f := FreshnessFactor(fs, config, e.iocType, e.observed, now);
    FreshnessFactorRange(fs, config, e.iocType, e.observed, now);
    score := EdgeScore(fs, e.iocType, e.degree, f, CorroborationK(e.corroboratedBy));
    ScoreCeiling(fs, e.iocType, e.degree, f, CorroborationK(e.corroboratedBy));
    DegreeFactorFalls(fs, e.degree, e.degree);
    BaseRange(e.iocType);
    MulGrows(BaseScore(e.iocType), BaseScore(e.iocType), 1.0, DegreeFactor(fs, e.degree));
  }

  lemma HubFactor(fs: Functions, degree: int)
    requires Lawful(fs)
    ensures degree > 10 ==> DegreeFactor(fs, degree) <= 0.4
    ensures degree > 3 ==> DegreeFactor(fs, degree) <= 1.0 / 1.4
  {
    if degree > 3 {
      LogFourThirds(fs);
      LogGrows(fs, 4.0 / 3.0, degree as real / 3.0);
      Reciprocal(1.4, 1.0 + fs.log2(degree as real / 3.0));
    }
    if degree > 10 {
      LogElevenThirds(fs);
      LogGrows(fs, 11.0 / 3.0, degree as real / 3.0);
      Reciprocal(2.5, 1.0 + fs.log2(degree as real / 3.0));
    }
  }

  /**
   The hub rule cannot be undone: an indicator shared by more than ten CVEs ends at low, whatever
   confirms or corroborates it, although a receipt may raise a level after the rule.  One shared by
   more than three never ends at high.
   */
  lemma HubCeiling(fs: Functions, config: DecayConfig, e: Edge, now: real)
    requires Lawful(fs)
    ensures e.degree > 10 ==> EdgeLevel(fs, config, e, now) == Low
    ensures e.degree > 3 ==> EdgeLevel(fs, config, e, now) != High
  {
    var score := EdgeScoreCeiling(fs, config, e, now);
    AtMostNumeric(fs, config, e, now);
    HubFactor(fs, e.degree);
    BaseRange(e.iocType);
    DegreeFactorFalls(fs, e.degree, e.degree);
    if e.degree > 10 {
      MulGrows(0.9, BaseScore(e.iocType), 0.4, DegreeFactor(fs, e.degree));
    } else if e.degree > 3 {
      MulGrows(0.9, BaseScore(e.iocType), 1.0 / 1.4, DegreeFactor(fs, e.degree));
    }
  }

  /** An address, or any other type, is always low, whatever confirms it, and a domain is never high. */
  lemma TypeCeiling(fs: Functions, config: DecayConfig, e: Edge, now: real)
    requires Lawful(fs)
    ensures e.iocType != "HASH" && e.iocType != "DOMAIN" && e.iocType != "URL" ==>
              EdgeLevel(fs, config, e, now) == Low
    ensures e.iocType == "DOMAIN" ==> EdgeLevel(fs, config, e, now) != High
  {
    var score := EdgeScoreCeiling(fs, config, e, now);
    AtMostNumeric(fs, config, e, now);
  }

  /** A URL is high exactly when at most three CVEs share it, its freshness is undiminished, and its
      corroboration count is at least three. */
  lemma UrlHighIff(fs: Functions, config: DecayConfig, e: Edge, now: real)
    requires Lawful(fs) && e.iocType == "URL"
    ensures EdgeLevel(fs, config, e, now) == High <==>
            e.degree <= 3 && FreshnessFactor(fs, config, "URL", e.observed, now) == 1.0 &&
            CorroborationK(e.corroboratedBy) >= 3.0
  {
    var f, k := FreshnessFactor(fs, config, "URL", e.observed, now), CorroborationK(e.corroboratedBy);
    var c := CorroborationFactor(fs, k);
    FreshnessFactorRange(fs, config, "URL", e.observed, now);
    CorroborationFactorGrows(fs, k, k);
    CorroborationKGrows(e.corroboratedBy, []);
    if e.degree > 3 {
      HubCeiling(fs, config, e, now);
    } else {
      assert DegreeFactor(fs, e.degree) == 1.0;
      assert EdgeScore(fs, "URL", e.degree, f, k) == 0.65 * f * c;
      UrlScore(f, c);
      AtMostNumeric(fs, config, e, now);
    }
  }

  lemma UrlScore(f: real, c: real)
    requires 0.0 <= f <= 1.0 && 0.0 <= c <= 1.0
    ensures 0.65 * f * c >= 0.65 <==> f == 1.0 && c == 1.0
  {
    MulGrows(f, f, 1.0, c);
    MulGrows(1.0, f, c, c);
    assert 0.65 * f * c == 0.65 * (f * c);
  }

  // ---------------------------------------------------------------- edges without receipts

  lemma ScoreWithoutReceipts(fs: Functions, iocType: string, degree: int, f: real)
    requires Lawful(fs) && degree <= 3
    ensures EdgeScore(fs, iocType, degree, f, 1.0) == BaseScore(iocType) * 0.8 * f
  {
    DegreeFactorAt(fs, degree, 0);
    CorroborationFactorAt(fs, 1.0);
    hide DegreeFactor, CorroborationFactor, BaseScore, Lawful;
    var b := BaseScore(iocType);
    calc {
      EdgeScore(fs, iocType, degree, f, 1.0);
      b * 1.0 * f * 0.8;
      b * 0.8 * f;
    }
  }

  /**
   The level of an indicator that at most three CVEs share, and that nothing confirms or
   corroborates, in terms of its freshness: 0.9, 0.6 or 0.65 for its type, times 0.8 for the lack of
   receipts, against 0.65 for high and 0.4 for medium.
   */
  lemma PlainLevelIff(fs: Functions, config: DecayConfig, e: Edge, now: real)
    requires Lawful(fs) && e.degree <= 3 && e.corroboratedBy == []
    requires e.confirmations == Confirmations("", false, false)
    ensures var f, level := FreshnessFactor(fs, config, e.iocType, e.observed, now), EdgeLevel(fs, config, e, now);
            && (e.iocType == "HASH" ==> (level == High <==> 0.72 * f >= 0.65) && (level == Low <==> 0.72 * f < 0.4))
            && (e.iocType == "DOMAIN" ==> level != High && (level == Medium <==> 0.48 * f >= 0.4))
            && (e.iocType == "URL" ==> level != High && (level == Medium <==> 0.52 * f >= 0.4))
  {
    var f := FreshnessFactor(fs, config, e.iocType, e.observed, now);
    CorroborationKIs(e.corroboratedBy);
    assert Sources([]) == {};
    ScoreWithoutReceipts(fs, e.iocType, e.degree, f);
    FreshnessFactorRange(fs, config, e.iocType, e.observed, now);
    hide CorroborationK, EdgeScore, FreshnessFactor, Lawful;
  }

  /**
   A hash ages: without corroboration it is no longer high from one half-life on, however it is
   confirmed, and low if nothing keeps the decay up: 365 days, when the operator sets none.
   */
  lemma OldHash(fs: Functions, config: DecayConfig, e: Edge, now: real)
    requires Lawful(fs) && e.iocType == "HASH" && e.corroboratedBy == []
    requires e.observed.Some? && "HASH" !in config.halfLifeDays && now - e.observed.value >= 365.0
    ensures config.floor <= 0.9 ==> EdgeLevel(fs, config, e, now) != High
    ensures config.floor <= 0.5 ==> EdgeLevel(fs, config, e, now) == Low
  {
    var most := if config.floor <= 0.5 then 5000 else 9000;
    assert FourPlaces(5000) == 0.5 && FourPlaces(9000) == 0.9;
    if config.floor <= 0.9 {
      HalfLives(config, "HASH");
      FreshnessAfterHalfLife(fs, config, "HASH", e.observed.value, now, most);
      FreshnessFactorRange(fs, config, "HASH", e.observed, now);
      var f := FreshnessFactor(fs, config, "HASH", e.observed, now);
      AtMostNumeric(fs, config, e, now);
      CorroborationKIs(e.corroboratedBy);
      assert Sources([]) == {};
      ScoreOfHash(fs, e.degree, f);
      hide EdgeScore, FreshnessFactor, Lawful, CorroborationK, EdgeLevel, FourPlaces;
      assert EdgeNumericLevel(fs, config, e, now) == ScoreLevel(EdgeScore(fs, "HASH", e.degree, f, 1.0));
    }
  }

  lemma ScoreOfHash(fs: Functions, degree: int, f: real)
    requires Lawful(fs) && 0.0 <= f
    ensures EdgeScore(fs, "HASH", degree, f, 1.0) <= 0.72 * f
  {
    ScoreWithoutReceipts(fs, "HASH", 0, f);
    NumericLevelMonotone(fs, "HASH", if degree < 0 then degree else 0, f, 1.0, degree, f, 1.0);
    if degree < 0 {
      ScoreWithoutReceipts(fs, "HASH", degree, f);
    }
  }

  // ---------------------------------------------------------------- where the documentation differs

  /**
   A hub of four to ten CVEs can be raised again after the rule lowered it: exactly when it is
   corroborated and its numeric level is above the lowered one.
   */
  lemma HubRescuedIff(fs: Functions, config: DecayConfig, e: Edge, now: real)
    requires Lawful(fs) && !IsNoise(e) && e.degree > 3
    ensures EdgeLevel(fs, config, e, now).Index() > RuleLevel(e).Index() <==>
            e.degree <= 10 && e.corroboratedBy != [] &&
            EdgeNumericLevel(fs, config, e, now).Index() > RuleLevel(e).Index()
  {
    HubCeiling(fs, config, e, now);
  }

  /** For instance a fresh domain that four CVEs share and that two sources corroborate. */
  lemma HubRescued(fs: Functions, config: DecayConfig, now: real)
    requires Lawful(fs)
    ensures var e := Edge("DOMAIN", Confirmations("", false, false), false, 4, None, None,
                          ["threatfox:1", "urlhaus:2"]);
            RuleLevel(e) == Low && EdgeLevel(fs, config, e, now) == Medium
  {
    var receipts := ["threatfox:1", "urlhaus:2"];
    var e := Edge("DOMAIN", Confirmations("", false, false), false, 4, None, None, receipts);
    assert receipts[0][9] == ':' && receipts[1][7] == ':';
    TwoSources(receipts[0], receipts[1]);
    assert receipts == [receipts[0], receipts[1]];
    FourSharing(fs);
    hide CorroborationK, EdgeScore;
    TypeCeiling(fs, config, e, now);
    ClosedForm(fs, config, e, now);
  }

  lemma TwoSources(r: string, r': string)
    requires ':' in r && ':' in r' && r[0] != ':' && r'[0] != ':' && r[0] != r'[0]
    ensures CorroborationK([r, r']) == 3.0
  {
    var a, b := Prefix(r), Prefix(r');
    assert a[0] == r[0] && b[0] == r'[0];
    assert Sources([r, r']) == {a, b};
  }

  lemma FourSharing(fs: Functions)
    requires Lawful(fs)
    ensures EdgeScore(fs, "DOMAIN", 4, 1.0, 3.0) >= 0.4
  {
    CorroborationFactorGrows(fs, 3.0, 3.0);
    LogFourThirds(fs);
    Reciprocal(1.0 + fs.log2(4.0 / 3.0), 1.5);
    assert DegreeFactor(fs, 4) >= 1.0 / 1.5;
    hide DegreeFactor, CorroborationFactor;
    assert EdgeScore(fs, "DOMAIN", 4, 1.0, 3.0) == 0.6 * DegreeFactor(fs, 4) * 1.0 * CorroborationFactor(fs, 3.0);
  }

  /**
   A high level still comes with a reason why it is not higher exactly when GreyNoise called the
   indicator benign and no receipt raised the level above the rules.
   */
  lemma HighStillExplainedIff(fs: Functions, config: DecayConfig, e: Edge, now: real)
    requires Lawful(fs) && EdgeLevel(fs, config, e, now) == High
    ensures EdgeReason(fs, config, e, now).Some? <==>
            GreynoiseBenign(e.confirmations) && RuleLevel(e) == High
  {
    HubCeiling(fs, config, e, now);
  }

  /** For instance a fresh hash that GreyNoise calls benign and MalwareBazaar knows. */
  lemma HighExplainedByNoise(fs: Functions, config: DecayConfig, now: real)
    requires Lawful(fs)
    ensures var e := Edge("HASH", Confirmations("benign", true, false), false, 1, None, None, []);
            EdgeLevel(fs, config, e, now) == High && EdgeReason(fs, config, e, now) == Some(BenignNoise)
  {
    var e := Edge("HASH", Confirmations("benign", true, false), false, 1, None, None, []);
    CorroborationKGrows([], []);
    CorroborationFactorGrows(fs, 1.0, 1.0);
    assert RuleLevel(e) == High && !IsNoise(e);
    hide CorroborationK, CorroborationFactor;
    assert EdgeScore(fs, "HASH", 1, 1.0, 1.0) == 0.9 * 1.0 * 1.0 * CorroborationFactor(fs, 1.0);
    assert EdgeNumericLevel(fs, config, e, now) == High;
  }

  /** An indicator of eleven CVEs: the reason is the hub, and the last factor is freshness. */
  lemma HubReasonIsNotLast(fs: Functions, config: DecayConfig, now: real)
    requires Lawful(fs)
    ensures var e := Edge("DOMAIN", Confirmations("", false, false), false, 11, None, None, []);
            EdgeReason(fs, config, e, now) == Some(SharedHub) != Some(Reason.Freshness)
  {
    var e := Edge("DOMAIN", Confirmations("", false, false), false, 11, None, None, []);
    assert RuleLevel(e) == Low && HubLowers(e) && !IsNoise(e);
    hide EdgeNumericLevel;
  }

  // ---------------------------------------------------------------- aggregation

  /** One edge of a peer, as it comes back from the procedure above. */
  datatype Judged = Judged(level: Level, why: Option<Reason>)

  function MaxLevel(edges: seq<Judged>): Level {
    if edges == [] then Low
    else
      var rest := MaxLevel(edges[1..]);
      if edges[0].level.Index() >= rest.Index() then edges[0].level else rest
  }

  function FirstReason(edges: seq<Judged>, level: Level): Option<Reason> {
    if edges == [] then None
    else if edges[0].level == level && edges[0].why.Some? then edges[0].why
    else FirstReason(edges[1..], level)
  }

  /** The first edge at a level that has a reason is the one whose reason is given. */
  lemma {:induction false} ReasonIsFirst(edges: seq<Judged>, level: Level, i: nat)
    requires i < |edges| && edges[i].level == level && edges[i].why.Some?
    requires forall j | 0 <= j < i :: edges[j].level != level || edges[j].why.None?
    ensures FirstReason(edges, level) == edges[i].why
    decreases i
  {
    if i > 0 {
      assert edges[0].level != level || edges[0].why.None?;
      ReasonIsFirst(edges[1..], level, i - 1);
    }
  }

  /** A peer's level is that of its best edge, and its reason is one such edge's own. */
  lemma {:induction false} PeerLevel(edges: seq<Judged>)
    ensures forall e | e in edges :: e.level.Index() <= MaxLevel(edges).Index()
    ensures edges != [] ==> exists e :: e in edges && e.level == MaxLevel(edges)
    ensures forall level :: FirstReason(edges, level).Some? <==>
              exists e :: e in edges && e.level == level && e.why.Some?
    ensures forall level :: FirstReason(edges, level).Some? ==>
              exists e :: e in edges && e.level == level && e.why == FirstReason(edges, level)
  {
    if edges != [] {
      PeerLevel(edges[1..]);
      assert edges[0] in edges;
      assert forall e :: e in edges <==> e == edges[0] || e in edges[1..];
      forall level | FirstReason(edges, level).Some?
        ensures exists e :: e in edges && e.level == level && e.why == FirstReason(edges, level)
      {
        if !(edges[0].level == level && edges[0].why.Some?) {
          assert FirstReason(edges, level) == FirstReason(edges[1..], level);
          var e :| e in edges[1..] && e.level == level && e.why == FirstReason(edges[1..], level);
          assert e in edges;
        }
      }
    }
  }
}
