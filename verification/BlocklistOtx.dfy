/** When OTX evidence is enough, and what a record says of the catalog sources that corroborate it. */
module BlocklistOtx {
  import opened Options
  import opened Ordering
  import opened Freshness
  import opened Confidence
  import opened Classification
  import opened Blocklist
  import opened BlocklistSoundness
  import opened BlocklistOrder
  import opened BlocklistRecord

  // ---------------------------------------------------------------- the level

  /** The score of OTX evidence on a domain: its base, times its freshness, times its corroboration. */
  function OtxScore(env: Environment, earliest: string, receipts: seq<string>): real
    requires Lawful(env.functions)
  {
    0.6 * FreshnessFactor(env.functions, env.decay, "DOMAIN", env.parseTime(earliest), env.now)
        * CorroborationFactor(env.functions, CorroborationK(receipts))
  }

  lemma DomainScore(fs: Functions, f: real, k: real)
    requires Lawful(fs)
    ensures EdgeScore(fs, "DOMAIN", 0, f, k) == 0.6 * f * CorroborationFactor(fs, k)
  {
    DegreeFactorAt(fs, 0, 0);
    hide DegreeFactor, CorroborationFactor, Lawful;
    var c := CorroborationFactor(fs, k);
    calc {
      EdgeScore(fs, "DOMAIN", 0, f, k);
      0.6 * 1.0 * f * c;
      0.6 * f * c;
    }
  }

  /** OTX evidence is medium exactly when the score of its earliest observation is at least 0.4, and
      low otherwise: no CVE shares the domain, and nothing else lowers it. */
  lemma OtxMediumIff(env: Environment, otx: seq<Evidence>, receipts: seq<string>, fetchedAt: string)
    requires Lawful(env.functions)
    ensures OtxLevel(env, otx, receipts, fetchedAt) ==
            if OtxScore(env, MinOr(FirstSeenOf(otx), ""), receipts) >= 0.4 then Medium else Low
  {
    var earliest := MinOr(FirstSeenOf(otx), "");
    var e := Edge("DOMAIN", Confirmations("", false, false), false, 0,
                  env.parseTime(earliest), env.parseTime(fetchedAt), receipts);
    assert RuleLevel(e) == Medium && !IsNoise(e);
    ClosedForm(env.functions, env.decay, e, env.now);
    TypeCeiling(env.functions, env.decay, e, env.now);
    DomainScore(env.functions, FreshnessFactor(env.functions, env.decay, "DOMAIN", e.observed, env.now),
                CorroborationK(receipts));
    OtxNeverHigh(env, otx, receipts, fetchedAt);
    hide EdgeScore, FreshnessFactor, CorroborationFactor, CorroborationK, FirstSeenOf, MinOr, Lawful, EdgeLevel;
    assert OtxLevel(env, otx, receipts, fetchedAt) == EdgeLevel(env.functions, env.decay, e, env.now);
  }

  /** Without a date, or with one that is not past, the score is at least 0.48. */
  lemma FreshScore(env: Environment, earliest: string, receipts: seq<string>)
    requires Lawful(env.functions)
    requires env.parseTime(earliest).Some? ==> env.parseTime(earliest).value >= env.now
    ensures OtxScore(env, earliest, receipts) >= 0.48
  {
    var observed := env.parseTime(earliest);
    RoundingPoints(env.functions);
    HalfPowerRange(env.functions, 0.0);
    assert FreshnessFactor(env.functions, env.decay, "DOMAIN", observed, env.now) == 1.0;
    CorroborationFactorGrows(env.functions, CorroborationK(receipts), CorroborationK(receipts));
    hide FreshnessFactor, CorroborationFactor, CorroborationK, Lawful;
  }

  /** From one half-life on the score is at most 0.3, if the floor of the decay is not above one half. */
  lemma OldScore(env: Environment, earliest: string, receipts: seq<string>)
    requires Lawful(env.functions) && env.decay.floor <= 0.5
    requires env.parseTime(earliest).Some?
    requires env.now - env.parseTime(earliest).value >= HalfLifeDays(env.decay, "DOMAIN") as real
    ensures OtxScore(env, earliest, receipts) <= 0.3
  {
    assert FourPlaces(5000) == 0.5;
    var observed := env.parseTime(earliest);
    FreshnessAfterHalfLife(env.functions, env.decay, "DOMAIN", observed.value, env.now, 5000);
    FreshnessFactorRange(env.functions, env.decay, "DOMAIN", observed, env.now);
    CorroborationFactorGrows(env.functions, CorroborationK(receipts), CorroborationK(receipts));
    hide FreshnessFactor, CorroborationFactor, CorroborationK, HalfLifeDays, FourPlaces, Lawful;
    var f := FreshnessFactor(env.functions, env.decay, "DOMAIN", observed, env.now);
    var c := CorroborationFactor(env.functions, CorroborationK(receipts));
    MulGrows(0.5, f, 1.0, c);
    assert 0.6 * f * c == 0.6 * (f * c);
  }

  /** The earliest observation is one of those of the evidence. */
  lemma EarliestIsSeen(otx: seq<Evidence>)
    requires otx != []
    ensures exists e :: e in otx && e.firstSeen == MinOr(FirstSeenOf(otx), "")
  {
    EarliestValue(otx, FirstSeen, "");
    NonEmptyMembers(otx, FirstSeen);
    var v := MinOr(FirstSeenOf(otx), "");
    if v == "" {
      assert otx[0] in otx;
      assert !Mentions(otx, FirstSeen, otx[0].firstSeen);
    } else {
      assert Mentions(otx, FirstSeen, v);
    }
  }

  // ---------------------------------------------------------------- which candidates are exported

  /** The evidence of a candidate in the OTX rows. */
  function OtxEvidence(env: Environment, otxRows: seq<Row>, domain: string): seq<Evidence> {
    Group(otxRows, r => OtxDomain(env, r), domain)
  }

  function CatalogEvidenceOf(env: Environment, catalogRows: seq<Row>, domain: string): seq<Evidence> {
    Group(catalogRows, r => CatalogDomain(env, r), domain)
  }

  lemma RecordIsListed(env: Environment, infra: seq<InfraRow>, catalogRows: seq<Row>, otxRows: seq<Row>,
                       domain: string)
    requires Lawful(env.functions) && domain in CandidateDomains(env, catalogRows, otxRows)
    ensures var p, r := Build(env, infra, catalogRows, otxRows), RecordFor(env, infra, catalogRows, otxRows, domain);
            && r.domain == domain
            && (r in p.domains <==> r.eligible) && (r in p.excluded <==> !r.eligible)
            && forall other | (other in p.domains || other in p.excluded) && other.domain == domain :: other == r
  {
    var candidates := CandidateDomains(env, catalogRows, otxRows);
    var records := Records(env, infra, catalogRows, otxRows, candidates);
    RecordsOf(env, infra, catalogRows, otxRows, candidates);
    RecordForKeepsDomain(env, infra, catalogRows, otxRows, domain);
    SelectMembers(records, true);
    SelectMembers(records, false);
    hide RecordFor, Records, CandidateDomains, Lawful;
  }

  /** Its host is excluded by its last infrastructure row, and it has no exact URL. */
  ghost predicate Suppressed(env: Environment, infra: seq<InfraRow>, r: Record) {
    LastRowExcludes(infra, env.canonicalHost, r.domain) && r.kind != UrlIoc
  }

  /**
   Which candidates are exported, each with the one record it has: with catalog evidence all but the
   suppressed ones; without it those that some catalog row corroborates and that score at least 0.4
   at their earliest OTX observation.
   */
  lemma ExportedIff(env: Environment, infra: seq<InfraRow>, catalogRows: seq<Row>, otxRows: seq<Row>, domain: string)
    requires Lawful(env.functions) && domain in CandidateDomains(env, catalogRows, otxRows)
    ensures var p, r := Build(env, infra, catalogRows, otxRows), RecordFor(env, infra, catalogRows, otxRows, domain);
            var hits := HitsFor(env, infra, otxRows, domain);
            var earliest := MinOr(FirstSeenOf(OtxEvidence(env, otxRows, domain)), "");
            && (r in p.domains <==>
                  !Suppressed(env, infra, r) &&
                  (CatalogEvidenceOf(env, catalogRows, domain) != [] ||
                   (hits != [] && OtxScore(env, earliest, Receipts(hits)) >= 0.4)))
            && (r !in p.domains <==> r in p.excluded)
  {
    RecordIsListed(env, infra, catalogRows, otxRows, domain);
    var hits, otx := HitsFor(env, infra, otxRows, domain), OtxEvidence(env, otxRows, domain);
    var catalog := CatalogEvidenceOf(env, catalogRows, domain);
    var classified := ClassifyHost(domain, IndexOf(infra, env.canonicalHost), env.canonicalHost);
    JudgeSound(env, domain, classified, catalog, otx, hits);
    ExcludedIffLastRow(infra, env.canonicalHost, domain);
    hide Judge, Group, HitsFor, Build, CandidateDomains, Lawful, ClassifyHost, LastRowExcludes, OtxLevel, OtxScore,
         Receipts, FirstSeenOf, MinOr, ExcludedFromExport, IndexOf;
    var r := RecordFor(env, infra, catalogRows, otxRows, domain);
    assert r == Judge(env, domain, classified, catalog, otx, hits);
    OtxMediumIff(env, otx, Receipts(hits), r.fetchedAt);
  }

  /** A candidate that is corroborated, and whose OTX observations are undated or not past, is exported. */
  lemma FreshIsExported(env: Environment, infra: seq<InfraRow>, catalogRows: seq<Row>, otxRows: seq<Row>,
                        domain: string)
    requires Lawful(env.functions) && domain in CandidateDomains(env, catalogRows, otxRows)
    ensures var r, otx := RecordFor(env, infra, catalogRows, otxRows, domain), OtxEvidence(env, otxRows, domain);
            HitsFor(env, infra, otxRows, domain) != [] && otx != [] && !Suppressed(env, infra, r) &&
            (forall e | e in otx :: env.parseTime(e.firstSeen).Some? ==> env.parseTime(e.firstSeen).value >= env.now)
            ==> r in Build(env, infra, catalogRows, otxRows).domains
  {
    ExportedIff(env, infra, catalogRows, otxRows, domain);
    var otx, receipts := OtxEvidence(env, otxRows, domain), Receipts(HitsFor(env, infra, otxRows, domain));
    hide Build, RecordFor, HitsFor, CandidateDomains, Lawful, OtxScore, Receipts, FirstSeenOf, MinOr, OtxEvidence,
         Suppressed;
    if otx != [] && forall e | e in otx ::
         env.parseTime(e.firstSeen).Some? ==> env.parseTime(e.firstSeen).value >= env.now {
      EarliestIsSeen(otx);
      FreshScore(env, MinOr(FirstSeenOf(otx), ""), receipts);
    }
  }

  /** One that rests on OTX evidence alone is excluded from one half-life on: 120 days by default. */
  lemma OldIsExcluded(env: Environment, infra: seq<InfraRow>, catalogRows: seq<Row>, otxRows: seq<Row>,
                      domain: string)
    requires Lawful(env.functions) && domain in CandidateDomains(env, catalogRows, otxRows)
    requires CatalogEvidenceOf(env, catalogRows, domain) == [] && OtxEvidence(env, otxRows, domain) != []
    requires "DOMAIN" !in env.decay.halfLifeDays && env.decay.floor <= 0.5
    requires forall e | e in OtxEvidence(env, otxRows, domain) ::
               env.parseTime(e.firstSeen).Some? && env.now - env.parseTime(e.firstSeen).value >= 120.0
    ensures RecordFor(env, infra, catalogRows, otxRows, domain) in Build(env, infra, catalogRows, otxRows).excluded
  {
    ExportedIff(env, infra, catalogRows, otxRows, domain);
    EarliestIsSeen(OtxEvidence(env, otxRows, domain));
    HalfLives(env.decay, "DOMAIN");
    var earliest := MinOr(FirstSeenOf(OtxEvidence(env, otxRows, domain)), "");
    hide Build, RecordFor, HitsFor, CandidateDomains, Lawful, OtxScore, Receipts, FirstSeenOf, MinOr, OtxEvidence,
         CatalogEvidenceOf, HalfLifeDays;
    OldScore(env, earliest, Receipts(HitsFor(env, infra, otxRows, domain)));
  }

  /**
   The hits of a candidate come from one lookup for all OTX domains, each asked once and in order,
   which is told every host that some infrastructure row excludes; the candidate's are those of its
   lower-case name.
   */
  lemma HitsAre(env: Environment, infra: seq<InfraRow>, otxRows: seq<Row>, domain: string)
    returns (asked: seq<string>, suppressed: set<string>)
    ensures StrictlySorted(asked)
    ensures forall d :: d in asked <==> '.' in d && exists row :: row in otxRows && OtxDomain(env, row) == d
    ensures forall h :: h in suppressed <==>
              (h != "" && exists i :: 0 <= i < |infra| && env.canonicalHost(infra[i].host) == h &&
                                      infra[i].enabled && !infra[i].class_.Unknown?)
    ensures var found := env.corroborate(asked, suppressed);
            HitsFor(env, infra, otxRows, domain) ==
            if env.lower(domain) in found then found[env.lower(domain)] else []
  {
    var domains := Domains(otxRows, r => OtxDomain(env, r));
    asked, suppressed := SortedDistinct(domains), ExcludedHosts(infra, env.canonicalHost);
    SortedDistinctSorts(domains);
    DomainsMembers(otxRows, r => OtxDomain(env, r));
    forall h
      ensures h in suppressed <==>
              (h != "" && exists i :: 0 <= i < |infra| && env.canonicalHost(infra[i].host) == h &&
                                      RowExcludes(infra[i]))
    {
      AnyRowExcludes(infra, env.canonicalHost, h);
    }
    hide SortedDistinct, Domains, StrictlySorted, ExcludedHosts, OtxDomain;
    assert forall d :: d in asked <==> d in Elements(asked);
    assert forall d :: d in domains <==> d in Elements(domains);
  }

  // ---------------------------------------------------------------- what a record says of its verdict

  /** Each receipt comes once, and more hits only append. */
  lemma {:induction false} ReceiptsDistinct(hits: seq<Hit>)
    ensures forall i, j | 0 <= i < j < |Receipts(hits)| :: Receipts(hits)[i] != Receipts(hits)[j]
    ensures hits != [] ==> Receipts(hits[..|hits| - 1]) <= Receipts(hits)
    decreases |hits|
  {
    hide Receipt;
    if hits != [] {
      ReceiptsDistinct(hits[..|hits| - 1]);
    }
  }

  lemma {:induction false} ReceiptsMembers(hits: seq<Hit>)
    ensures forall r :: r in Receipts(hits) <==> exists h :: h in hits && r == h.source + ":" + h.refId
    decreases |hits|
  {
    if hits != [] {
      var n := |hits| - 1;
      ReceiptsMembers(hits[..n]);
      assert hits == hits[..n] + [hits[n]];
      assert forall h :: h in hits <==> h in hits[..n] || h == hits[n];
    }
  }

  lemma {:induction false} ReceiptSourcesMembers(receipts: seq<string>)
    ensures forall s :: s in ReceiptSources(receipts) <==> exists r :: r in receipts && ':' in r && s == Prefix(r)
  {
    if receipts != [] {
      ReceiptSourcesMembers(receipts[1..]);
      assert forall r :: r in receipts <==> r == receipts[0] || r in receipts[1..];
    }
  }

  lemma {:induction false} PrefixOfReceipt(source: string, refId: string)
    requires ':' !in source
    ensures Prefix(source + ":" + refId) == source
  {
    var receipt := source + ":" + refId;
    if source != "" {
      assert source[0] in source;
      assert receipt[1..] == source[1..] + ":" + refId;
      PrefixOfReceipt(source[1..], refId);
    } else {
      assert receipt[0] == ':';
    }
  }

  lemma NamedSources(hits: seq<Hit>)
    requires forall h | h in hits :: ':' !in h.source
    ensures forall s :: s in ReceiptSources(Receipts(hits)) <==> exists h :: h in hits && h.source == s
  {
    hide ReceiptSources, Receipts, Prefix;
    ReceiptsMembers(hits);
    ReceiptSourcesMembers(Receipts(hits));
    forall h | h in hits ensures Prefix(h.source + ":" + h.refId) == h.source && ':' in h.source + ":" + h.refId {
      PrefixOfReceipt(h.source, h.refId);
      assert (h.source + ":" + h.refId)[|h.source|] == ':';
    }
    forall s | exists h :: h in hits && h.source == s ensures s in ReceiptSources(Receipts(hits)) {
      var h :| h in hits && h.source == s;
      assert h.source + ":" + h.refId in Receipts(hits);
    }
  }

  /** The corroborating sources are those that the hits name, each once and in order. */
  lemma CorroboratingSources(hits: seq<Hit>)
    requires forall h | h in hits :: ':' !in h.source
    ensures var sources := SortedDistinct(ReceiptSources(Receipts(hits)));
            StrictlySorted(sources) && forall s :: s in sources <==> exists h :: h in hits && h.source == s
  {
    var named := ReceiptSources(Receipts(hits));
    hide SortedDistinct, ReceiptSources, Receipts, StrictlySorted;
    NamedSources(hits);
    SortedDistinctSorts(named);
    assert forall s :: s in SortedDistinct(named) <==> s in Elements(SortedDistinct(named));
    assert forall s :: s in named <==> s in Elements(named);
  }

  lemma {:induction false} HitConfidenceMembers(hits: seq<Hit>)
    ensures forall x :: x in HitConfidences(hits) <==> exists h :: h in hits && h.confidenceLevel == x
  {
    if hits != [] {
      HitConfidenceMembers(hits[1..]);
      assert forall h :: h in hits <==> h == hits[0] || h in hits[1..];
    }
  }

  lemma HighestHit(hits: seq<Hit>)
    requires hits != []
    ensures var highest := MaxIntOrZero(HitConfidences(hits));
            && (forall h | h in hits :: h.confidenceLevel <= highest)
            && exists h :: h in hits && h.confidenceLevel == highest
  {
    HitConfidenceMembers(hits);
    assert HitConfidences(hits) != [];
    MaxIntIs(HitConfidences(hits));
    hide HitConfidences, MaxInt;
    assert forall h | h in hits :: h.confidenceLevel in HitConfidences(hits);
  }

  /** Which verdict a candidate gets, what counts for it, and how much of it is told. */
  lemma VerdictFields(base: Record, inCatalog: bool, inOtx: bool, upstream: int, otxLevel: Level, hits: seq<Hit>)
    requires base.confidenceLevel == 0 && base.confidence == Low && base.corroboratingSources == []
    requires base.reason == OtxUncorroborated && !base.otxCorroborated && otxLevel != High
    ensures
      var r := Decide(base, inCatalog, inOtx, upstream, otxLevel, hits);
      var suppressed := ExcludedFromExport(base.classified) && base.kind != UrlIoc;
      var sources := SortedDistinct(ReceiptSources(Receipts(hits)));
      && r.reason == (if suppressed then Infrastructure(base.classified.class_)
                      else if inCatalog then CatalogEvidence
                      else if hits == [] then OtxUncorroborated
                      else if otxLevel == Low then OtxBelowMedium(Low) else OtxCorroborated)
      && (r.otxCorroborated <==> !suppressed && hits != [])
      && r.corroboratingSources == (if suppressed || (inCatalog && !inOtx) || (!inCatalog && hits == []) then []
                                    else sources)
      && r.confidenceLevel == (if r.reason == OtxCorroborated then MaxIntOrZero(HitConfidences(hits))
                               else if r.reason == OtxUncorroborated then 0 else upstream)
  {
    hide SortedDistinct, ReceiptSources, Receipts, MaxIntOrZero, HitConfidences, UpstreamLevel, ExportEligibility,
         ExcludedFromExport;
  }

  /**
   A record without catalog evidence: its reason tells suppressed, uncorroborated, too low and
   exported candidates apart; exported, it carries the highest confidence number of its hits, and
   otherwise zero; and it names the sources of its hits exactly when they counted.
   */
  lemma OtxRecordFields(env: Environment, domain: string, classified: Classified, otx: seq<Evidence>, hits: seq<Hit>)
    requires Lawful(env.functions) && forall h | h in hits :: ':' !in h.source
    ensures
      var r := Judge(env, domain, classified, [], otx, hits);
      var suppressed := ExcludedFromExport(classified) && r.kind != UrlIoc;
      && (suppressed <==> r.reason == Infrastructure(classified.class_))
      && (!suppressed && hits == [] <==> r.reason == OtxUncorroborated)
      && (r.eligible <==> r.reason == OtxCorroborated)
      && (!suppressed && hits != [] && !r.eligible <==> r.reason == OtxBelowMedium(Low))
      && (!r.eligible ==> r.confidenceLevel == 0)
      && (r.eligible ==> (forall h | h in hits :: h.confidenceLevel <= r.confidenceLevel) &&
                         exists h :: h in hits && h.confidenceLevel == r.confidenceLevel)
      && (r.otxCorroborated <==> !suppressed && hits != [])
      && StrictlySorted(r.corroboratingSources)
      && (forall s :: s in r.corroboratingSources <==> !suppressed && exists h :: h in hits && h.source == s)
  {
    NothingSorted();
    hide Judge, Decide, SortedDistinct, ReceiptSources, Receipts, MaxIntOrZero, HitConfidences, StrictlySorted, Lawful,
         ExcludedFromExport, OtxLevel;
    var base, level := Judged(env, domain, classified, [], otx, hits);
    CorroboratingSources(hits);
    if hits != [] {
      HighestHit(hits);
    }
    VerdictFields(base, false, otx != [], 0, level, hits);
  }

  lemma NothingSorted()
    ensures StrictlySorted([])
  {
  }

  /** A record is the decision on a record that says nothing yet, and keeps its kind. */
  lemma Judged(env: Environment, domain: string, classified: Classified,
               catalog: seq<Evidence>, otx: seq<Evidence>, hits: seq<Hit>) returns (base: Record, level: Level)
    requires Lawful(env.functions)
    ensures var r, upstream := Judge(env, domain, classified, catalog, otx, hits), MaxIntOrZero(Confidences(catalog));
            && r == Decide(base, catalog != [], otx != [], upstream, level, hits) && r.kind == base.kind
            && (catalog == [] ==> upstream == 0) && level != High
            && base.classified == classified && base.reason == OtxUncorroborated && !base.otxCorroborated
            && base.confidenceLevel == 0 && base.confidence == Low && base.corroboratingSources == []
            && (r.eligible <==>
                  !(ExcludedFromExport(classified) && r.kind != UrlIoc) &&
                  (catalog != [] || (hits != [] && level != Low)))
  {
    base := BaseRecord(env, domain, classified, SortBy(catalog + otx, EvidenceKey));
    level := OtxLevel(env, otx, Receipts(hits), base.fetchedAt);
    OtxNeverHigh(env, otx, Receipts(hits), base.fetchedAt);
    hide OtxLevel, SortBy, CandidateIoc, SortedDistinct, Lawful, Receipts, MaxInt, Decide, NonEmpty, Field, MinOr,
         MaxOr, ExcludedFromExport;
    DecideSound(base, catalog != [], otx != [], MaxIntOrZero(Confidences(catalog)), level, hits);
  }

  /** A record with catalog evidence names the sources that corroborate it only when OTX has it too. */
  lemma CatalogRecordFields(env: Environment, domain: string, classified: Classified,
                            catalog: seq<Evidence>, otx: seq<Evidence>, hits: seq<Hit>)
    requires Lawful(env.functions) && catalog != [] && forall h | h in hits :: ':' !in h.source
    ensures
      var r := Judge(env, domain, classified, catalog, otx, hits);
      && (r.eligible <==> r.reason == CatalogEvidence)
      && (!r.eligible <==> r.reason == Infrastructure(classified.class_))
      && (r.otxCorroborated <==> r.eligible && hits != [])
      && StrictlySorted(r.corroboratingSources)
      && (forall s :: s in r.corroboratingSources <==>
            r.eligible && otx != [] && exists h :: h in hits && h.source == s)
  {
    NothingSorted();
    hide Judge, Decide, SortedDistinct, ReceiptSources, Receipts, MaxIntOrZero, HitConfidences, StrictlySorted, Lawful,
         ExcludedFromExport, OtxLevel, Confidences;
    var base, level := Judged(env, domain, classified, catalog, otx, hits);
    CorroboratingSources(hits);
    VerdictFields(base, true, otx != [], MaxIntOrZero(Confidences(catalog)), level, hits);
  }
}
