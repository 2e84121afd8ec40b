/**
 The numeric half of an edge's confidence (backend/correlation/freshness.py and the half-lives of
 backend/correlation/config.py).

 The logarithm, the exponential and the rounding are parameters.  What is assumed of them are the
 laws that single them out: a strictly increasing function with log2(xy) = log2(x) + log2(y) and
 log2(2) = 1, a decreasing one with p(x + y) = p(x) p(y) and p(1) = 1/2, and any monotone rounding
 to the nearest number of four decimal places, whichever way it breaks ties.
 */
module Freshness {
  import opened Options

  datatype Functions = Functions(log2: real -> real, halfPower: real -> real, round4: real -> real)

  ghost predicate ProductLaw(f: real -> real, x: real, y: real) {
    f(x * y) == f(x) + f(y)
  }

  ghost predicate IsLog2(f: real -> real) {
    && (forall x, y | 0.0 < x < y :: f(x) < f(y))
    && (forall x, y | 0.0 < x && 0.0 < y :: ProductLaw(f, x, y))
    && f(2.0) == 1.0
  }

  ghost predicate SumLaw(p: real -> real, x: real, y: real) {
    p(x + y) == p(x) * p(y)
  }

  ghost predicate IsHalfPower(p: real -> real) {
    && (forall x, y | x <= y :: p(x) >= p(y))
    && (forall x, y :: SumLaw(p, x, y))
    && p(1.0) == 0.5
  }

  function FourPlaces(k: int): real {
    k as real / 10000.0
  }

  ghost predicate RoundsAt(r: real -> real, x: real) {
    (exists k: int :: r(x) == FourPlaces(k)) && x - 0.00005 <= r(x) <= x + 0.00005
  }

  ghost predicate IsRounding(r: real -> real) {
    (forall x, y | x <= y :: r(x) <= r(y)) && forall x :: RoundsAt(r, x)
  }

  ghost predicate Lawful(fs: Functions) {
    IsLog2(fs.log2) && IsHalfPower(fs.halfPower) && IsRounding(fs.round4)
  }

  // ---------------------------------------------------------------- the calculations

  datatype Level = Low | Medium | High {
    function Index(): nat {
      match this
      case Low => 0
      case Medium => 1
      case High => 2
    }
  }

  /** Half-lives set by the operator, and the floor of the decay. */
  datatype DecayConfig = DecayConfig(halfLifeDays: map<string, int>, floor: real)

  function ScoreKey(iocType: string): string {
    if iocType == "IPV4" || iocType == "IPV6" then "IP" else iocType
  }

  function HalfLifeDays(config: DecayConfig, iocType: string): (days: int)
    ensures days >= 1
  {
    var key := ScoreKey(iocType);
    if key in config.halfLifeDays then
      (if config.halfLifeDays[key] > 1 then config.halfLifeDays[key] else 1)
    else if key == "IP" then 30
    else if key == "URL" then 60
    else if key == "DOMAIN" then 120
    else if key == "HASH" then 365
    else 120
  }

  function Floor(config: DecayConfig): (floor: real)
    ensures 0.0 <= floor <= 1.0 && (0.0 <= config.floor <= 1.0 ==> floor == config.floor)
  {
    Max(0.0, Min(1.0, config.floor))
  }

  function DegreeFactor(fs: Functions, degree: int): real
    requires Lawful(fs)
  {
    DegreePositive(fs, degree);
    if degree <= 3 then 1.0 else 1.0 / (1.0 + fs.log2(degree as real / 3.0))
  }

  function FreshnessMultiplier(fs: Functions, config: DecayConfig, iocType: string, ageDays: real): real {
    Max(Floor(config), fs.halfPower(Max(0.0, ageDays) / HalfLifeDays(config, iocType) as real))
  }

  function CorroborationFactor(fs: Functions, k: real): real {
    Min(1.0, 0.6 + 0.2 * fs.log2(1.0 + Max(1.0, k)))
  }

  function ScoreLevel(score: real): Level {
    if score >= 0.65 then High else if score >= 0.40 then Medium else Low
  }

  function BaseScore(iocType: string): real {
    var key := ScoreKey(iocType);
    if key == "HASH" then 0.9 else if key == "DOMAIN" then 0.6 else if key == "URL" then 0.65 else 0.3
  }

  function EdgeScore(fs: Functions, iocType: string, degree: int, freshness: real, k: real): real
    requires Lawful(fs)
  {
    BaseScore(iocType) * DegreeFactor(fs, degree) * freshness * CorroborationFactor(fs, k)
  }

  /** Times in days; None where a timestamp is missing or does not parse. */
  function FreshnessFactor(fs: Functions, config: DecayConfig, iocType: string,
                           observed: Option<real>, now: real): real
  {
    match observed
    case None => 1.0
    case Some(t) => fs.round4(FreshnessMultiplier(fs, config, iocType, Max(0.0, now - t)))
  }

  function NumericLevel(fs: Functions, iocType: string, degree: int, freshness: real, k: real): Level
    requires Lawful(fs)
  {
    ScoreLevel(EdgeScore(fs, iocType, degree, freshness, k))
  }

  // ---------------------------------------------------------------- rounding facts

  /** A number of four decimal places is its own rounding. */
  lemma RoundingKeeps(r: real -> real, k: int)
    requires IsRounding(r)
    ensures r(FourPlaces(k)) == FourPlaces(k)
  {
    assert RoundsAt(r, FourPlaces(k));
    var j: int :| r(FourPlaces(k)) == FourPlaces(j);
    assert (j - k) as real == 10000.0 * (FourPlaces(j) - FourPlaces(k));
  }

  lemma RoundingPoints(fs: Functions)
    requires Lawful(fs)
    ensures fs.round4(0.0) == 0.0 && fs.round4(1.0) == 1.0
  {
    RoundingKeeps(fs.round4, 0);
    RoundingKeeps(fs.round4, 10000);
    assert FourPlaces(0) == 0.0 && FourPlaces(10000) == 1.0;
  }

  // ---------------------------------------------------------------- logarithm facts

  lemma Product(fs: Functions, x: real, y: real)
    requires Lawful(fs) && 0.0 < x && 0.0 < y
    ensures fs.log2(x * y) == fs.log2(x) + fs.log2(y)
  {
    assert ProductLaw(fs.log2, x, y);
  }

  lemma LogPoints(fs: Functions)
    requires Lawful(fs)
    ensures fs.log2(1.0) == 0.0 && fs.log2(2.0) == 1.0 && fs.log2(4.0) == 2.0 && fs.log2(8.0) == 3.0
  {
    Product(fs, 1.0, 1.0);
    Product(fs, 2.0, 2.0);
    Product(fs, 2.0, 4.0);
  }

  /** 2/5 <= log2(4/3) <= 1/2, because (4/3)^5 > 4 and (4/3)^2 < 2. */
  lemma LogFourThirds(fs: Functions)
    requires Lawful(fs)
    ensures 0.4 <= fs.log2(4.0 / 3.0) <= 0.5
  {
    var x := 4.0 / 3.0;
    LogPoints(fs);
    Product(fs, x, x);
    Product(fs, 16.0 / 9.0, 16.0 / 9.0);
    Product(fs, 256.0 / 81.0, x);
    assert x * x == 16.0 / 9.0 && (16.0 / 9.0) * (16.0 / 9.0) == 256.0 / 81.0;
    assert (256.0 / 81.0) * x == 1024.0 / 243.0;
    assert fs.log2(1024.0 / 243.0) > fs.log2(4.0);
    assert fs.log2(16.0 / 9.0) < fs.log2(2.0);
  }

  /** log2(11/3) >= 3/2, because (11/3)^2 > 8. */
  lemma LogElevenThirds(fs: Functions)
    requires Lawful(fs)
    ensures fs.log2(11.0 / 3.0) >= 1.5
  {
    LogPoints(fs);
    Product(fs, 11.0 / 3.0, 11.0 / 3.0);
    assert (11.0 / 3.0) * (11.0 / 3.0) == 121.0 / 9.0;
    assert fs.log2(121.0 / 9.0) > fs.log2(8.0);
  }

  lemma LogGrows(fs: Functions, x: real, y: real)
    requires Lawful(fs) && 0.0 < x <= y
    ensures fs.log2(x) <= fs.log2(y)
  {
  }

  // ---------------------------------------------------------------- the factors

  lemma DegreePositive(fs: Functions, degree: int)
    requires Lawful(fs)
    ensures degree > 3 ==> fs.log2(degree as real / 3.0) > 0.0
  {
    if degree > 3 {
      LogPoints(fs);
      assert degree as real / 3.0 > 1.0;
    }
  }

  lemma Reciprocal(a: real, b: real)
    requires 0.0 < a <= b
    ensures 0.0 < 1.0 / b <= 1.0 / a
  {
    assert (1.0 / a) * a == 1.0 && (1.0 / b) * b == 1.0;
  }

  /** More CVEs sharing an indicator never raise its degree factor. */
  lemma DegreeFactorFalls(fs: Functions, d: int, d': int)
    requires Lawful(fs) && d <= d'
    ensures 0.0 < DegreeFactor(fs, d') <= DegreeFactor(fs, d) <= 1.0
  {
    DegreePositive(fs, d);
    DegreePositive(fs, d');
    if d' > 3 {
      var l := 1.0 + fs.log2(d' as real / 3.0);
      Reciprocal(1.0, l);
      if d > 3 {
        var k := 1.0 + fs.log2(d as real / 3.0);
        LogGrows(fs, d as real / 3.0, d' as real / 3.0);
        Reciprocal(k, l);
        Reciprocal(1.0, k);
      }
    }
  }

  lemma HalfPowerRange(fs: Functions, x: real)
    requires Lawful(fs) && x >= 0.0
    ensures fs.halfPower(x) <= 1.0 && fs.halfPower(0.0) == 1.0
  {
    assert SumLaw(fs.halfPower, 0.0, 1.0);
    assert fs.halfPower(0.0 + 1.0) == fs.halfPower(0.0) * fs.halfPower(1.0);
  }

  lemma QuotientGrows(x: real, y: real, h: real)
    requires 0.0 <= x <= y && h > 0.0
    ensures 0.0 <= x / h <= y / h
  {
    assert (y / h - x / h) * h == y - x;
  }

  /** The factor is in [0, 1], and never rises when the observation is older. */
  lemma FreshnessFactorFalls(fs: Functions, config: DecayConfig, iocType: string,
                             older: real, newer: real, now: real)
    requires Lawful(fs) && older <= newer
    ensures 0.0 <= FreshnessFactor(fs, config, iocType, Some(older), now)
                <= FreshnessFactor(fs, config, iocType, Some(newer), now) <= 1.0
  {
    var h := HalfLifeDays(config, iocType) as real;
    var a, b := Max(0.0, now - newer) / h, Max(0.0, now - older) / h;
    QuotientGrows(Max(0.0, now - newer), Max(0.0, now - older), h);
    HalfPowerRange(fs, a);
    HalfPowerRange(fs, b);
    RoundingPoints(fs);
    assert fs.halfPower(b) <= fs.halfPower(a);
  }

  lemma FreshnessFactorRange(fs: Functions, config: DecayConfig, iocType: string, observed: Option<real>, now: real)
    requires Lawful(fs)
    ensures 0.0 <= FreshnessFactor(fs, config, iocType, observed, now) <= 1.0
  {
    if observed.Some? {
      FreshnessFactorFalls(fs, config, iocType, observed.value, observed.value, now);
    }
  }

  /** More corroboration never lowers the factor; it saturates exactly from a count of three on. */
  lemma CorroborationFactorGrows(fs: Functions, k: real, k': real)
    requires Lawful(fs) && k <= k'
    ensures 0.8 <= CorroborationFactor(fs, k) <= CorroborationFactor(fs, k') <= 1.0
    ensures CorroborationFactor(fs, k) == 1.0 <==> k >= 3.0
  {
    LogPoints(fs);
    LogGrows(fs, 2.0, 1.0 + Max(1.0, k));
    LogGrows(fs, 1.0 + Max(1.0, k), 1.0 + Max(1.0, k'));
    if k >= 3.0 {
      LogGrows(fs, 4.0, 1.0 + k);
    } else {
      assert fs.log2(1.0 + Max(1.0, k)) < fs.log2(4.0);
    }
  }

  // ---------------------------------------------------------------- the factors at points

  /** 1 / 2^n. */
  function Halves(n: nat): (r: real)
    ensures 0.0 < r <= 1.0
  {
    if n == 0 then 1.0 else Halves(n - 1) / 2.0
  }

  lemma {:induction false} HalfPowerAt(fs: Functions, n: nat)
    requires Lawful(fs)
    ensures fs.halfPower(n as real) == Halves(n)
  {
    if n == 0 {
      HalfPowerRange(fs, 0.0);
    } else {
      HalfPowerAt(fs, n - 1);
      assert SumLaw(fs.halfPower, (n - 1) as real, 1.0);
      assert (n - 1) as real + 1.0 == n as real;
    }
  }

  /** The half-lives: what the operator set, at least a day, or else 30, 60, 120 and 365 days. */
  lemma HalfLives(config: DecayConfig, iocType: string)
    ensures var key := if iocType == "IPV4" || iocType == "IPV6" then "IP" else iocType;
            && (key in config.halfLifeDays && config.halfLifeDays[key] >= 1 ==>
                  HalfLifeDays(config, iocType) == config.halfLifeDays[key])
            && (key in config.halfLifeDays && config.halfLifeDays[key] < 1 ==> HalfLifeDays(config, iocType) == 1)
            && (key !in config.halfLifeDays ==>
                  (key == "IP" ==> HalfLifeDays(config, iocType) == 30) &&
                  (key == "URL" ==> HalfLifeDays(config, iocType) == 60) &&
                  (key == "HASH" ==> HalfLifeDays(config, iocType) == 365) &&
                  (key != "IP" && key != "URL" && key != "HASH" ==> HalfLifeDays(config, iocType) == 120))
  {
  }

  /** n half-lives, in days. */
  function Age(n: nat, halfLife: int): real {
    n as real * halfLife as real
  }

  lemma AgeInHalfLives(n: nat, halfLife: int)
    requires halfLife >= 1
    ensures Age(n, halfLife) >= 0.0 && Age(n, halfLife) / halfLife as real == n as real
  {
  }

  /** The decay at n half-lives: one half to the power of n, but never below the floor. */
  lemma FreshnessAtHalfLives(fs: Functions, config: DecayConfig, iocType: string, n: nat, now: real)
    requires Lawful(fs) && 0.0 <= config.floor <= 1.0
    ensures var observed := Some(now - Age(n, HalfLifeDays(config, iocType)));
            var decayed := if config.floor > Halves(n) then config.floor else Halves(n);
            var factor := FreshnessFactor(fs, config, iocType, observed, now);
            factor == fs.round4(decayed) && decayed - 0.00005 <= factor <= decayed + 0.00005
  {
    HalfPowerAt(fs, n);
    AgeInHalfLives(n, HalfLifeDays(config, iocType));
    hide Age, HalfLifeDays, Halves, Lawful, FreshnessFactor;
    FreshnessOfAge(fs, config, iocType, Age(n, HalfLifeDays(config, iocType)), now);
  }

  /** The factor of an observation of some age is the rounding of its decay, or of the floor. */
  lemma FreshnessOfAge(fs: Functions, config: DecayConfig, iocType: string, age: real, now: real)
    requires Lawful(fs) && age >= 0.0
    ensures var decayed := Max(Floor(config), fs.halfPower(age / HalfLifeDays(config, iocType) as real));
            var factor := FreshnessFactor(fs, config, iocType, Some(now - age), now);
            factor == fs.round4(decayed) && decayed - 0.00005 <= factor <= decayed + 0.00005
  {
    hide HalfLifeDays, IsLog2, IsHalfPower, Floor;
    assert Max(0.0, now - (now - age)) == age;
    assert RoundsAt(fs.round4, FreshnessMultiplier(fs, config, iocType, age));
  }

  /** Apart from the floor, ages add up: the decay over two stretches is the product of the decays. */
  lemma DecayComposes(fs: Functions, config: DecayConfig, iocType: string, x: real, y: real)
    requires Lawful(fs) && x >= 0.0 && y >= 0.0 && config.floor == 0.0
    ensures FreshnessMultiplier(fs, config, iocType, x + y)
            == FreshnessMultiplier(fs, config, iocType, x) * FreshnessMultiplier(fs, config, iocType, y)
  {
    var h := HalfLifeDays(config, iocType) as real;
    QuotientAdds(x, y, h);
    assert SumLaw(fs.halfPower, x / h, y / h);
    HalfPowerPositive(fs, x / h);
    HalfPowerPositive(fs, y / h);
    HalfPowerPositive(fs, (x + y) / h);
    hide HalfLifeDays, Lawful;
  }

  lemma QuotientAdds(x: real, y: real, h: real)
    requires h > 0.0
    ensures (x + y) / h == x / h + y / h
  {
  }

  /** Every value is the square of another one. */
  lemma HalfPowerPositive(fs: Functions, x: real)
    requires Lawful(fs)
    ensures fs.halfPower(x) >= 0.0
  {
    assert SumLaw(fs.halfPower, x / 2.0, x / 2.0);
    assert x / 2.0 + x / 2.0 == x;
    Square(fs.halfPower(x / 2.0));
  }

  lemma Square(x: real)
    ensures x * x >= 0.0
  {
  }

  /** From one half-life on the factor is at most the rounding of the floor or one half. */
  lemma FreshnessAfterHalfLife(fs: Functions, config: DecayConfig, iocType: string, t: real, now: real, most: int)
    requires Lawful(fs) && 5000 <= most && config.floor <= FourPlaces(most)
    requires now - t >= HalfLifeDays(config, iocType) as real
    ensures FreshnessFactor(fs, config, iocType, Some(t), now) <= FourPlaces(most)
  {
    var h := HalfLifeDays(config, iocType) as real;
    QuotientGrows(h, now - t, h);
    assert h / h == 1.0;
    assert fs.halfPower((now - t) / h) <= fs.halfPower(1.0);
    assert FourPlaces(5000) == 0.5 && FourPlaces(most) >= FourPlaces(5000);
    RoundingKeeps(fs.round4, most);
    assert FreshnessMultiplier(fs, config, iocType, now - t) <= FourPlaces(most);
  }

  lemma {:induction false} LogOfPow2(fs: Functions, k: nat)
    requires Lawful(fs)
    ensures fs.log2(Pow2(k) as real) == k as real
  {
    LogPoints(fs);
    if k > 0 {
      LogOfPow2(fs, k - 1);
      Product(fs, 2.0, Pow2(k - 1) as real);
      assert Pow2(k) as real == 2.0 * Pow2(k - 1) as real;
    }
  }

  /** The degree factor is 1 up to three CVEs, and 1 / (1 + k) at 3 * 2^k of them. */
  lemma DegreeFactorAt(fs: Functions, degree: int, k: nat)
    requires Lawful(fs)
    ensures degree <= 3 ==> DegreeFactor(fs, degree) == 1.0
    ensures DegreeFactor(fs, 3 * Pow2(k)) == 1.0 / (1.0 + k as real)
  {
    LogOfPow2(fs, k);
    LogPoints(fs);
    assert (3 * Pow2(k)) as real / 3.0 == Pow2(k) as real;
    if k == 0 {
      assert 3 * Pow2(k) == 3;
    } else {
      assert Pow2(k) == 2 * Pow2(k - 1) >= 2;
    }
  }

  /** The corroboration factor is 0.8 up to a count of one, 0.9 at sqrt(8) - 1, and 1 from three on. */
  lemma CorroborationFactorAt(fs: Functions, k: real)
    requires Lawful(fs)
    ensures k <= 1.0 ==> CorroborationFactor(fs, k) == 0.8
    ensures k >= 1.0 && (1.0 + k) * (1.0 + k) == 8.0 ==> CorroborationFactor(fs, k) == 0.9
    ensures k >= 3.0 ==> CorroborationFactor(fs, k) == 1.0
  {
    LogPoints(fs);
    CorroborationFactorGrows(fs, k, k);
    if k >= 1.0 && (1.0 + k) * (1.0 + k) == 8.0 {
      LogOfRoot(fs, 1.0 + k);
    }
    hide Lawful;
  }

  lemma LogOfRoot(fs: Functions, x: real)
    requires Lawful(fs) && x > 0.0 && x * x == 8.0
    ensures fs.log2(x) == 1.5
  {
    LogPoints(fs);
    Product(fs, x, x);
  }

  // ---------------------------------------------------------------- the score

  lemma ProductsGrow(b: real, d: real, f: real, c: real, d': real, f': real, c': real)
    requires 0.0 <= b && 0.0 <= d' <= d && 0.0 <= f' <= f && 0.0 <= c' <= c
    ensures 0.0 <= b * d' * f' * c' <= b * d * f * c
  {
    MulGrows(b, b, d, d');
    MulGrows(b * d, b * d', f, f');
    MulGrows(b * d * f, b * d' * f', c, c');
  }

  lemma MulGrows(x: real, x': real, y: real, y': real)
    requires 0.0 <= x' <= x && 0.0 <= y' <= y
    ensures 0.0 <= x' * y' <= x * y
  {
    assert x * y - x' * y' == (x - x') * y + x' * (y - y');
  }

  /** The score is monotone in all three factors, and so is the level. */
  lemma NumericLevelMonotone(fs: Functions, iocType: string, d: int, f: real, k: real, d': int, f': real, k': real)
    requires Lawful(fs) && d <= d' && 0.0 <= f' <= f && k' <= k
    ensures EdgeScore(fs, iocType, d', f', k') <= EdgeScore(fs, iocType, d, f, k)
    ensures NumericLevel(fs, iocType, d', f', k').Index() <= NumericLevel(fs, iocType, d, f, k).Index()
  {
    hide DegreeFactor, CorroborationFactor;
    DegreeFactorFalls(fs, d, d');
    CorroborationFactorGrows(fs, k', k);
    ProductsGrow(BaseScore(iocType), DegreeFactor(fs, d), f, CorroborationFactor(fs, k),
                 DegreeFactor(fs, d'), f', CorroborationFactor(fs, k'));
  }
}
