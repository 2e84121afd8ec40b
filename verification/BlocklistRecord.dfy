/** What the fields of a blocklist record say about the evidence behind it. */
module BlocklistRecord {
  import opened Ordering
  import opened Freshness
  import opened Confidence
  import opened Classification
  import opened Blocklist
  import opened BlocklistSoundness
  import opened BlocklistOrder

  // ---------------------------------------------------------------- the exact indicator

  lemma {:induction false} FirstUrlIs(env: Environment, sorted: seq<Evidence>)
    requires Sorted(sorted, IocKey)
    ensures FirstUrl(env, sorted).None? ==> forall e | e in sorted :: KindOf(env, e) == DomainIoc
    ensures FirstUrl(env, sorted).Some? ==>
              var u := FirstUrl(env, sorted).value;
              && u in sorted && KindOf(env, u) == UrlIoc
              && forall e | e in sorted && KindOf(env, e) == UrlIoc :: KeyLe(IocKey(u), IocKey(e))
  {
    KeyOrder();
    hide KeyLe, KindOf, IocKey;
    if sorted != [] {
      FirstUrlIs(env, sorted[1..]);
      assert forall e :: e in sorted <==> e == sorted[0] || e in sorted[1..];
      SortedHead(sorted, IocKey);
    }
  }

  lemma SortedHead<T>(xs: seq<T>, key: T -> Key)
    requires xs != [] && Sorted(xs, key)
    ensures forall x | x in xs :: KeyLe(key(xs[0]), key(x))
  {
    KeyOrder();
    hide KeyLe;
  }

  /** The type is url, or the raw value has a scheme. */
  ghost predicate IsUrlEvidence(env: Environment, e: Evidence) {
    env.lower(env.strip(e.iocType)) == "url" || exists scheme, rest :: e.rawIoc == scheme + "://" + rest
  }

  lemma UrlEvidence(env: Environment, e: Evidence)
    ensures KindOf(env, e) == UrlIoc <==> IsUrlEvidence(env, e)
  {
    var raw := e.rawIoc;
    if scheme, rest :| raw == scheme + "://" + rest {
      assert raw[|scheme|..] == "://" + rest;
    }
    if i :| 0 <= i < |raw| && "://" <= raw[i..] {
      assert raw == raw[..i] + "://" + raw[i..][3..];
    }
  }

  /**
   A candidate is a URL exactly when some row of its evidence is one.  Its exact indicator is the raw
   value of such a row, or else its value, or those of any row when there is none: the least by type,
   source, reference and raw value.  It is never made up from the domain.
   */
  lemma ExactIocIsUpstream(env: Environment, evidence: seq<Evidence>)
    ensures var (kind, exact) := CandidateIoc(env, evidence);
            && (kind == UrlIoc <==> exists e :: e in evidence && IsUrlEvidence(env, e))
            && (evidence != [] ==> exists e ::
                  && e in evidence && (IsUrlEvidence(env, e) <==> kind == UrlIoc)
                  && exact == (if env.strip(e.rawIoc) != "" then env.strip(e.rawIoc) else env.strip(e.iocValue))
                  && forall other | other in evidence && (IsUrlEvidence(env, other) <==> kind == UrlIoc) ::
                       KeyLe([e.iocType, e.source, e.refId, e.rawIoc],
                             [other.iocType, other.source, other.refId, other.rawIoc]))
            && (evidence == [] ==> exact == "")
  {
    var sorted := SortBy(evidence, IocKey);
    SortBySorts(evidence, IocKey);
    SameMembers(sorted, evidence);
    FirstUrlIs(env, sorted);
    forall e ensures KindOf(env, e) == UrlIoc <==> IsUrlEvidence(env, e) {
      UrlEvidence(env, e);
    }
    hide SortBy, KeyLe, KindOf, FirstUrl, Sorted, IsUrlEvidence;
    if evidence != [] && FirstUrl(env, sorted).None? {
      SortedHead(sorted, IocKey);
      assert sorted[0] in sorted;
    }
  }

  // ---------------------------------------------------------------- the summary fields

  lemma {:induction false} MaxOfIs(xs: seq<string>)
    requires xs != []
    ensures MaxOf(xs) in xs && forall x | x in xs :: StrLe(x, MaxOf(xs))
  {
    StrOrder();
    hide StrLe;
    if |xs| > 1 {
      MaxOfIs(xs[1..]);
      assert forall x :: x in xs <==> x == xs[0] || x in xs[1..];
    }
  }

  /** Some row of the evidence has the value in the field. */
  ghost predicate Mentions(evidence: seq<Evidence>, field: Evidence -> string, value: string) {
    value != "" && exists e :: e in evidence && field(e) == value
  }

  lemma DistinctValues(evidence: seq<Evidence>, field: Evidence -> string)
    ensures var values := SortedDistinct(NonEmpty(Field(evidence, field)));
            StrictlySorted(values) && forall v :: v in values <==> Mentions(evidence, field, v)
  {
    var all := NonEmpty(Field(evidence, field));
    NonEmptyMembers(evidence, field);
    SortedDistinctSorts(all);
    hide SortedDistinct, NonEmpty, Field, StrictlySorted;
    assert forall v :: v in SortedDistinct(all) <==> v in Elements(SortedDistinct(all));
    assert forall v :: v in all <==> v in Elements(all);
  }

  /** The earliest value that is mentioned, or the default when there is none. */
  lemma EarliestValue(evidence: seq<Evidence>, field: Evidence -> string, default: string)
    ensures var v := MinOr(NonEmpty(Field(evidence, field)), default);
            && (forall w | Mentions(evidence, field, w) :: Mentions(evidence, field, v) && StrLe(v, w))
            && (Mentions(evidence, field, v) || v == default)
  {
    var all := NonEmpty(Field(evidence, field));
    NonEmptyMembers(evidence, field);
    if all != [] {
      MinOfIs(all);
    }
    hide StrLe, NonEmpty, Field, MinOf;
    assert forall w | Mentions(evidence, field, w) :: w in all;
  }

  lemma LatestValue(evidence: seq<Evidence>, field: Evidence -> string, default: string)
    ensures var v := MaxOr(NonEmpty(Field(evidence, field)), default);
            && (forall w | Mentions(evidence, field, w) :: Mentions(evidence, field, v) && StrLe(w, v))
            && (Mentions(evidence, field, v) || v == default)
  {
    var all := NonEmpty(Field(evidence, field));
    NonEmptyMembers(evidence, field);
    if all != [] {
      MaxOfIs(all);
    }
    hide StrLe, NonEmpty, Field, MaxOf;
    assert forall w | Mentions(evidence, field, w) :: w in all;
  }

  /** The fields that the verdict does not touch. */
  predicate SameSummary(r: Record, base: Record) {
    && r.evidence == base.evidence && r.sources == base.sources && r.malware == base.malware
    && r.threatType == base.threatType && r.firstSeen == base.firstSeen && r.fetchedAt == base.fetchedAt
    && r.kind == base.kind && r.exactIoc == base.exactIoc
  }

  lemma EligibilityKeepsSummary(r: Record, base: Record)
    requires SameSummary(r, base)
    ensures SameSummary(WithEligibility(r, true), base)
  {
  }

  lemma DecideKeepsSummary(base: Record, inCatalog: bool, inOtx: bool, upstream: int, otxLevel: Level, hits: seq<Hit>)
    ensures SameSummary(Decide(base, inCatalog, inOtx, upstream, otxLevel, hits), base)
  {
    hide SortedDistinct, ReceiptSources, Receipts, MaxIntOrZero, HitConfidences, UpstreamLevel, WithEligibility,
         ExcludedFromExport;
    var sources := SortedDistinct(ReceiptSources(Receipts(hits)));
    if ExcludedFromExport(base.classified) && base.kind != UrlIoc {
    } else if inCatalog {
      EligibilityKeepsSummary(
        base.(reason := CatalogEvidence, confidenceLevel := upstream,
              confidence := if inOtx && hits != [] then otxLevel else UpstreamLevel(upstream),
              corroboratingSources := if inOtx then sources else [], otxCorroborated := hits != []),
        base);
    } else if hits != [] && otxLevel.Index() >= Medium.Index() {
      var judged := base.(confidence := otxLevel, corroboratingSources := sources, otxCorroborated := true);
      EligibilityKeepsSummary(
        judged.(reason := OtxCorroborated, confidenceLevel := MaxIntOrZero(HitConfidences(hits))), base);
    }
  }

  lemma DecideConfidence(base: Record, inOtx: bool, upstream: int, otxLevel: Level, hits: seq<Hit>)
    requires !base.eligible
    ensures var r := Decide(base, true, inOtx, upstream, otxLevel, hits);
            && r.confidenceLevel == upstream
            && r.confidence == if r.eligible && inOtx && hits != [] then otxLevel else UpstreamLevel(upstream)
  {
    hide SortedDistinct, ReceiptSources, Receipts, MaxIntOrZero, HitConfidences, UpstreamLevel, ExportEligibility;
  }

  /**
   The summary of a record, whatever the verdict: its lists hold exactly the values that its evidence
   mentions, each once and in order; it was first seen at the earliest time mentioned and fetched at
   the latest; and its indicator is that of its evidence.
   */
  lemma RecordSummarises(env: Environment, domain: string, classified: Classified,
                         catalog: seq<Evidence>, otx: seq<Evidence>, hits: seq<Hit>)
    requires Lawful(env.functions)
    ensures var r := Judge(env, domain, classified, catalog, otx, hits);
            && multiset(r.evidence) == multiset(catalog + otx)
            && (StrictlySorted(r.sources) && forall v :: v in r.sources <==> Mentions(r.evidence, SourceName, v))
            && (StrictlySorted(r.malware) && forall v :: v in r.malware <==> Mentions(r.evidence, Malware, v))
            && (StrictlySorted(r.threatType) && forall v :: v in r.threatType <==> Mentions(r.evidence, ThreatType, v))
            && (forall w | Mentions(r.evidence, FirstSeen, w) :: StrLe(r.firstSeen, w))
            && (Mentions(r.evidence, FirstSeen, r.firstSeen) || r.firstSeen == env.generatedAt)
            && (forall w | Mentions(r.evidence, FetchedAt, w) :: StrLe(w, r.fetchedAt))
            && (Mentions(r.evidence, FetchedAt, r.fetchedAt) || r.fetchedAt == env.generatedAt)
            && (r.kind, r.exactIoc) == CandidateIoc(env, r.evidence)
  {
    var evidence := SortBy(catalog + otx, EvidenceKey);
    SortBySorts(catalog + otx, EvidenceKey);
    DistinctValues(evidence, SourceName);
    DistinctValues(evidence, Malware);
    DistinctValues(evidence, ThreatType);
    EarliestValue(evidence, FirstSeen, env.generatedAt);
    LatestValue(evidence, FetchedAt, env.generatedAt);
    var base := BaseRecord(env, domain, classified, evidence);
    DecideKeepsSummary(base, catalog != [], otx != [], MaxIntOrZero(Confidences(catalog)),
                       OtxLevel(env, otx, Receipts(hits), base.fetchedAt), hits);
    hide SortBy, CandidateIoc, SortedDistinct, NonEmpty, Field, MinOr, MaxOr, StrLe, Decide, OtxLevel, Receipts,
         Confidences, MaxIntOrZero, Mentions, StrictlySorted, Lawful;
  }

  // ---------------------------------------------------------------- the confidence

  /** The highest upstream number of some evidence, and the level it stands for. */
  lemma UpstreamIs(catalog: seq<Evidence>)
    requires catalog != []
    ensures var upstream := MaxIntOrZero(Confidences(catalog));
            && (forall e | e in catalog :: e.confidenceLevel <= upstream)
            && (exists e :: e in catalog && e.confidenceLevel == upstream)
            && (UpstreamLevel(upstream) == High <==> exists e :: e in catalog && e.confidenceLevel >= 80)
            && (UpstreamLevel(upstream) == Low <==> forall e | e in catalog :: e.confidenceLevel < 50)
  {
    ConfidenceMembers(catalog);
    MaxIntIs(Confidences(catalog));
    hide Confidences, MaxInt;
    assert forall e | e in catalog :: e.confidenceLevel in Confidences(catalog);
  }

  /**
   The confidence of an eligible record.  With catalog evidence it is the upstream one, high from 80
   and medium from 50 on, unless OTX evidence on the same domain is corroborated too: then it is the
   edge confidence, which is never high.
   */
  lemma CatalogConfidence(env: Environment, domain: string, classified: Classified,
                          catalog: seq<Evidence>, otx: seq<Evidence>, hits: seq<Hit>)
    requires Lawful(env.functions) && catalog != []
    ensures var r := Judge(env, domain, classified, catalog, otx, hits);
            && (forall e | e in catalog :: e.confidenceLevel <= r.confidenceLevel)
            && (exists e :: e in catalog && e.confidenceLevel == r.confidenceLevel)
            && (!r.eligible || otx == [] || hits == [] ==>
                  (r.confidence == High <==> exists e :: e in catalog && e.confidenceLevel >= 80) &&
                  (r.confidence == Low <==> forall e | e in catalog :: e.confidenceLevel < 50))
            && (r.eligible && otx != [] && hits != [] ==> r.confidence != High)
  {
    var base := BaseRecord(env, domain, classified, SortBy(catalog + otx, EvidenceKey));
    assert !base.eligible;
    UpstreamIs(catalog);
    OtxNeverHigh(env, otx, Receipts(hits), base.fetchedAt);
    DecideConfidence(base, otx != [], MaxIntOrZero(Confidences(catalog)),
                     OtxLevel(env, otx, Receipts(hits), base.fetchedAt), hits);
    hide Decide, BaseRecord, Confidences, SortBy, OtxLevel, Receipts, MaxIntOrZero, Lawful, UpstreamLevel;
  }
}
