/** Where a candidate ends up, and what that says about it. */
module BlocklistSoundness {
  import opened Ordering
  import opened Freshness
  import opened Confidence
  import opened Classification
  import opened Blocklist

  // ---------------------------------------------------------------- one record

  /**
   When a candidate is eligible: unless its host is an enabled exclusion and it has no exact URL,
   with any catalog evidence, or with OTX evidence that a catalog source corroborates at medium.
   Its flags say no more than its verdict, and every eligible candidate has at least one of them.
   */
  lemma JudgeSound(env: Environment, domain: string, classified: Classified,
                   catalog: seq<Evidence>, otx: seq<Evidence>, hits: seq<Hit>)
    requires Lawful(env.functions)
    ensures var r := Judge(env, domain, classified, catalog, otx, hits);
            && r.domain == domain && r.classified == classified
            && r.evidence == SortBy(catalog + otx, EvidenceKey)
            && (r.eligible <==>
                  !(ExcludedFromExport(classified) && r.kind != UrlIoc) &&
                  (catalog != [] ||
                   (hits != [] && OtxLevel(env, otx, Receipts(hits), r.fetchedAt).Index() >= Medium.Index())))
            && (r.eligible <==> r.eligibleDomain || r.eligibleUrl)
            && (r.eligibleDomain <==> r.eligible && !ExcludedFromExport(classified))
            && (r.eligibleUrl <==> r.eligible && r.kind == UrlIoc)
            && (r.eligible && catalog == [] ==> hits != [] && r.otxCorroborated && r.confidence == Medium)
  {
    var base := BaseRecord(env, domain, classified, SortBy(catalog + otx, EvidenceKey));
    var level := OtxLevel(env, otx, Receipts(hits), base.fetchedAt);
    OtxNeverHigh(env, otx, Receipts(hits), base.fetchedAt);
    DecideSound(base, catalog != [], otx != [], MaxIntOrZero(Confidences(catalog)), level, hits);
    hide OtxLevel, SortBy, CandidateIoc, SortedDistinct, Lawful, Receipts, Confidences, MaxIntOrZero, Decide;
  }

  lemma DecideSound(base: Record, inCatalog: bool, inOtx: bool, upstream: int, otxLevel: Level, hits: seq<Hit>)
    requires !base.eligible && !base.eligibleDomain && !base.eligibleUrl && otxLevel != High
    ensures var r := Decide(base, inCatalog, inOtx, upstream, otxLevel, hits);
            && r.domain == base.domain && r.classified == base.classified && r.kind == base.kind
            && r.evidence == base.evidence && r.fetchedAt == base.fetchedAt
            && (r.eligible <==>
                  !(ExcludedFromExport(base.classified) && r.kind != UrlIoc) &&
                  (inCatalog || (hits != [] && otxLevel.Index() >= Medium.Index())))
            && (r.eligible <==> r.eligibleDomain || r.eligibleUrl)
            && (r.eligibleDomain <==> r.eligible && !ExcludedFromExport(base.classified))
            && (r.eligibleUrl <==> r.eligible && r.kind == UrlIoc)
            && (r.eligible && !inCatalog ==> hits != [] && r.otxCorroborated && r.confidence == Medium)
  {
    hide SortedDistinct, ReceiptSources, Receipts, MaxIntOrZero, HitConfidences, UpstreamLevel;
  }

  /** OTX evidence is a domain edge, and those are never high. */
  lemma OtxNeverHigh(env: Environment, otx: seq<Evidence>, receipts: seq<string>, fetchedAt: string)
    requires Lawful(env.functions)
    ensures OtxLevel(env, otx, receipts, fetchedAt) != High
  {
    var e := Edge("DOMAIN", Confirmations("", false, false), false, 0,
                  env.parseTime(MinOr(FirstSeenOf(otx), "")), env.parseTime(fetchedAt), receipts);
    TypeCeiling(env.functions, env.decay, e, env.now);
    hide EdgeLevel;
  }

  // ---------------------------------------------------------------- the two lists

  function Names(records: seq<Record>): (names: seq<string>)
    ensures |names| == |records|
  {
    if records == [] then [] else [records[0].domain] + Names(records[1..])
  }

  lemma {:induction false} SelectMembers(records: seq<Record>, eligible: bool)
    ensures forall r :: r in Select(records, eligible) <==> r in records && r.eligible == eligible
  {
    if records != [] {
      SelectMembers(records[1..], eligible);
      assert records == [records[0]] + records[1..];
    }
  }

  lemma {:induction false} NamesMembers(records: seq<Record>)
    ensures forall n :: n in Names(records) <==> exists r :: r in records && r.domain == n
  {
    if records != [] {
      NamesMembers(records[1..]);
      assert forall r :: r in records <==> r == records[0] || r in records[1..];
    }
  }

  /** A smaller first element keeps a list strictly sorted. */
  lemma SortedCons(x: string, xs: seq<string>)
    requires StrictlySorted(xs) && forall y | y in xs :: StrLe(x, y) && x != y
    ensures StrictlySorted([x] + xs)
  {
    hide StrLe;
    forall j | 0 <= j < |xs| ensures StrLe(x, xs[j]) && x != xs[j] {
      assert xs[j] in xs;
    }
  }

  lemma SortedTail(x: string, xs: seq<string>)
    requires StrictlySorted([x] + xs)
    ensures StrictlySorted(xs) && forall y | y in xs :: StrLe(x, y) && x != y
  {
    hide StrLe;
    var all := [x] + xs;
    forall i | 0 <= i < |xs| ensures StrLe(x, xs[i]) && x != xs[i] {
      assert all[0] == x && all[i + 1] == xs[i];
    }
    forall i, j | 0 <= i < j < |xs| ensures StrLe(xs[i], xs[j]) && xs[i] != xs[j] {
      assert all[i + 1] == xs[i] && all[j + 1] == xs[j];
    }
  }

  lemma {:induction false} SelectKeepsOrder(records: seq<Record>, eligible: bool)
    requires StrictlySorted(Names(records))
    ensures StrictlySorted(Names(Select(records, eligible)))
  {
    hide StrictlySorted, StrLe;
    if records != [] {
      var x, tail := records[0], records[1..];
      var rest := Select(tail, eligible);
      SortedTail(x.domain, Names(tail));
      SelectKeepsOrder(tail, eligible);
      NamesMembers(rest);
      NamesMembers(tail);
      SelectMembers(tail, eligible);
      SortedCons(x.domain, Names(rest));
      assert ([x] + rest)[1..] == rest && [] + rest == rest;
    } else {
      assert Select(records, eligible) == records;
    }
  }

  lemma NamesCons(r: Record, records: seq<Record>)
    ensures multiset(Names([r] + records)) == multiset{r.domain} + multiset(Names(records))
  {
    assert ([r] + records)[1..] == records;
  }

  lemma {:induction false} SelectPartitions(records: seq<Record>)
    ensures multiset(Names(Select(records, true))) + multiset(Names(Select(records, false)))
            == multiset(Names(records))
  {
    if records == [] {
      assert Select(records, true) == records && Select(records, false) == records;
    } else {
      hide Select, Names;
      SelectPartitions(records[1..]);
      SelectAdds(records[0], records[1..]);
      NamesCons(records[0], records[1..]);
      assert records == [records[0]] + records[1..];
    }
  }

  lemma SelectAdds(r: Record, rest: seq<Record>)
    ensures multiset(Names(Select([r] + rest, true))) + multiset(Names(Select([r] + rest, false)))
            == multiset{r.domain} + (multiset(Names(Select(rest, true))) + multiset(Names(Select(rest, false))))
  {
    SelectCons(r, rest);
    NamesCons(r, Select(rest, r.eligible));
  }

  lemma SelectCons(r: Record, records: seq<Record>)
    ensures Select([r] + records, r.eligible) == [r] + Select(records, r.eligible)
    ensures Select([r] + records, !r.eligible) == Select(records, !r.eligible)
  {
    assert ([r] + records)[1..] == records;
  }

  lemma RecordForKeepsDomain(env: Environment, infra: seq<InfraRow>, catalogRows: seq<Row>, otxRows: seq<Row>,
                             domain: string)
    requires Lawful(env.functions)
    ensures RecordFor(env, infra, catalogRows, otxRows, domain).domain == domain
  {
    hide OtxLevel, SortBy, CandidateIoc, SortedDistinct, Group;
  }

  lemma {:induction false} RecordsOf(env: Environment, infra: seq<InfraRow>, catalogRows: seq<Row>,
                                     otxRows: seq<Row>, candidates: seq<string>)
    requires Lawful(env.functions)
    ensures var records := Records(env, infra, catalogRows, otxRows, candidates);
            && Names(records) == candidates
            && (forall r | r in records ::
                  r.domain in candidates && r == RecordFor(env, infra, catalogRows, otxRows, r.domain))
            && (forall d | d in candidates :: RecordFor(env, infra, catalogRows, otxRows, d) in records)
  {
    hide RecordFor, Lawful;
    if candidates != [] {
      RecordsOf(env, infra, catalogRows, otxRows, candidates[1..]);
      RecordForKeepsDomain(env, infra, catalogRows, otxRows, candidates[0]);
      assert candidates == [candidates[0]] + candidates[1..];
    }
  }

  /**
   Partition: the eligible and the excluded candidates are strictly sorted by domain, together they
   hold every candidate domain exactly once and nothing else, and the counts are theirs.
   */
  lemma Partition(env: Environment, infra: seq<InfraRow>, catalogRows: seq<Row>, otxRows: seq<Row>)
    requires Lawful(env.functions)
    ensures var p, candidates := Build(env, infra, catalogRows, otxRows), CandidateDomains(env, catalogRows, otxRows);
            && StrictlySorted(candidates)
            && StrictlySorted(Names(p.domains)) && StrictlySorted(Names(p.excluded))
            && multiset(Names(p.domains)) + multiset(Names(p.excluded)) == multiset(candidates)
            && p.eligibleCount == |p.domains| && p.excludedCount == |p.excluded|
            && p.candidateCount == |p.domains| + |p.excluded| && p.generatedAt == env.generatedAt
  {
    var all := Domains(catalogRows, r => CatalogDomain(env, r)) + Domains(otxRows, r => OtxDomain(env, r));
    SortedDistinctSorts(all);
    var candidates := CandidateDomains(env, catalogRows, otxRows);
    assert candidates == SortedDistinct(all);
    hide SortedDistinct, Records, Lawful;
    var records := Records(env, infra, catalogRows, otxRows, candidates);
    RecordsOf(env, infra, catalogRows, otxRows, candidates);
    SelectKeepsOrder(records, true);
    SelectKeepsOrder(records, false);
    SelectPartitions(records);
    assert |Names(Select(records, true))| + |Names(Select(records, false))| == |candidates| by {
      assert |multiset(candidates)| == |candidates|;
      assert |multiset(Names(Select(records, true)))| == |Names(Select(records, true))|;
      assert |multiset(Names(Select(records, false)))| == |Names(Select(records, false))|;
    }
  }

  /**
   Soundness: every exported record is eligible in some form; as a domain if and only if the last
   infrastructure row that names its host does not exclude it; as a URL if and only if its exact
   indicator is one; and without catalog evidence of its own only with a catalog source that
   corroborates it, at exactly medium confidence.  No excluded record is eligible.
   */
  lemma ExportIsSound(env: Environment, infra: seq<InfraRow>, catalogRows: seq<Row>, otxRows: seq<Row>, r: Record)
    requires Lawful(env.functions)
    ensures var p := Build(env, infra, catalogRows, otxRows);
            && (r in p.domains ==>
                  && r.eligible && (r.eligibleDomain || r.eligibleUrl)
                  && (r.eligibleDomain <==> !LastRowExcludes(infra, env.canonicalHost, r.domain))
                  && (r.eligibleUrl <==> r.kind == UrlIoc)
                  && (Group(catalogRows, x => CatalogDomain(env, x), r.domain) == [] ==>
                        HitsFor(env, infra, otxRows, r.domain) != [] && r.confidence == Medium))
            && (r in p.excluded ==> !r.eligible && !r.eligibleDomain && !r.eligibleUrl)
  {
    var candidates := CandidateDomains(env, catalogRows, otxRows);
    RecordsOf(env, infra, catalogRows, otxRows, candidates);
    SelectMembers(Records(env, infra, catalogRows, otxRows, candidates), true);
    SelectMembers(Records(env, infra, catalogRows, otxRows, candidates), false);
    JudgeSound(env, r.domain, ClassifyHost(r.domain, IndexOf(infra, env.canonicalHost), env.canonicalHost),
               Group(catalogRows, x => CatalogDomain(env, x), r.domain),
               Group(otxRows, x => OtxDomain(env, x), r.domain), HitsFor(env, infra, otxRows, r.domain));
    ExcludedIffLastRow(infra, env.canonicalHost, r.domain);
    hide Judge, Group, HitsFor, Records, CandidateDomains, Lawful, ClassifyHost, LastRowExcludes;
  }

  /**
   When no excluding row is overruled, no exported domain has any row that excludes it: for instance
   when the rows have different canonical hosts.
   */
  lemma NoExcludedDomain(env: Environment, infra: seq<InfraRow>, catalogRows: seq<Row>, otxRows: seq<Row>, r: Record)
    requires Lawful(env.functions) && NoneOverruled(infra, env.canonicalHost)
    ensures r in Build(env, infra, catalogRows, otxRows).domains && r.eligibleDomain ==>
            !SomeRowExcludes(infra, env.canonicalHost, r.domain)
  {
    ExportIsSound(env, infra, catalogRows, otxRows, r);
    ExclusionsAgreeIff(infra, env.canonicalHost);
    hide Build, Lawful, SomeRowExcludes, LastRowExcludes, NoneOverruled;
  }
}
