/** build_blocklist as the program runs it: dictionaries filled in loops (backend/blocklist/build.py). */
module BlocklistBuilder {
  import opened Ordering
  import opened Freshness
  import opened Confidence
  import opened Classification
  import opened Blocklist
  import opened BlocklistSoundness
  import opened BlocklistOrder

  // ---------------------------------------------------------------- the dictionaries

  /** The classification index, and the hosts that an enabled row excludes. */
  method IndexInfra(infra: seq<InfraRow>, canonicalHost: string -> string)
    returns (index: Index, excluded: set<string>)
    ensures index == IndexOf(infra, canonicalHost)
    ensures excluded == ExcludedHosts(infra, canonicalHost)
    ensures forall h :: h in index <==> h != "" && exists i :: 0 <= i < |infra| && canonicalHost(infra[i].host) == h
    ensures forall h | h in index :: exists i :: LastNaming(infra, canonicalHost, h, i) && index[h] == infra[i]
    ensures forall h :: h in excluded <==>
              h != "" && exists i :: 0 <= i < |infra| && canonicalHost(infra[i].host) == h && RowExcludes(infra[i])
  {
    index, excluded := map[], {};
    for i := 0 to |infra|
      invariant index == IndexOf(infra[..i], canonicalHost)
      invariant excluded == ExcludedHosts(infra[..i], canonicalHost)
    {
      var row := infra[i];
      assert infra[..i + 1][..i] == infra[..i];
      var host := canonicalHost(row.host);
      if host != "" {
        index := index[host := row];
        if row.enabled && !row.class_.Unknown? {
          excluded := excluded + {host};
        }
      }
    }
    assert infra[..|infra|] == infra;
    forall h
      ensures h in index <==> h != "" && exists i :: 0 <= i < |infra| && canonicalHost(infra[i].host) == h
      ensures h in index ==> exists i :: LastNaming(infra, canonicalHost, h, i) && index[h] == infra[i]
      ensures h in excluded <==>
                h != "" && exists i :: 0 <= i < |infra| && canonicalHost(infra[i].host) == h && RowExcludes(infra[i])
    {
      LastRowWins(infra, canonicalHost, h);
      AnyRowExcludes(infra, canonicalHost, h);
    }
  }

  type Groups = map<string, seq<Evidence>>

  /** The groups hold the evidence of every candidate domain of the rows, and no empty group. */
  ghost predicate GroupsOf(groups: Groups, rows: seq<Row>, domainOf: Row -> string) {
    && groups.Keys == Elements(Domains(rows, domainOf))
    && (forall d | d in groups :: groups[d] == Group(rows, domainOf, d))
    && (forall d | d in groups :: IsCandidate(d))
  }

  lemma {:induction false} GroupEmptyIff(rows: seq<Row>, domainOf: Row -> string, domain: string)
    requires IsCandidate(domain)
    ensures Group(rows, domainOf, domain) == [] <==> domain !in Domains(rows, domainOf)
  {
    hide IsCandidate;
    if rows != [] {
      GroupEmptyIff(rows[1..], domainOf, domain);
    }
  }

  lemma {:induction false} DomainsSplit(a: seq<Row>, b: seq<Row>, domainOf: Row -> string)
    ensures Domains(a + b, domainOf) == Domains(a, domainOf) + Domains(b, domainOf)
  {
    hide IsCandidate;
    if a == [] {
      assert a + b == b;
    } else {
      DomainsSplit(a[1..], b, domainOf);
      assert (a + b)[1..] == a[1..] + b && (a + b)[0] == a[0];
      ConcatAssoc(if IsCandidate(domainOf(a[0])) then [domainOf(a[0])] else [],
                  Domains(a[1..], domainOf), Domains(b, domainOf));
    }
  }

  /** A missing key reads as an empty group. */
  function GroupAt(groups: Groups, domain: string): seq<Evidence> {
    if domain in groups then groups[domain] else []
  }

  lemma GroupAtIs(groups: Groups, rows: seq<Row>, domainOf: Row -> string, domain: string)
    requires GroupsOf(groups, rows, domainOf) && IsCandidate(domain)
    ensures GroupAt(groups, domain) == Group(rows, domainOf, domain)
  {
    if domain !in groups {
      assert domain !in Elements(Domains(rows, domainOf));
      GroupEmptyIff(rows, domainOf, domain);
    }
  }

  lemma DomainsAdd(rows: seq<Row>, row: Row, domainOf: Row -> string)
    ensures var d := domainOf(row);
            Elements(Domains(rows + [row], domainOf)) ==
            Elements(Domains(rows, domainOf)) + (if IsCandidate(d) then {d} else {})
  {
    hide IsCandidate;
    DomainsSplit(rows, [row], domainOf);
    assert [row][1..] == [];
    assert Domains([row], domainOf) ==
           (if IsCandidate(domainOf(row)) then [domainOf(row)] else []) + Domains([], domainOf);
  }

  lemma GroupAdd(rows: seq<Row>, row: Row, domainOf: Row -> string, domain: string)
    ensures Group(rows + [row], domainOf, domain) ==
            if domain == domainOf(row) then Group(rows, domainOf, domain) + [EvidenceRow(row)]
            else Group(rows, domainOf, domain)
  {
    GroupSplits(rows, [row], domainOf, domain);
    GroupOne(row, domainOf, domain);
  }

  /** The dictionary after one more row. */
  function GroupsWith(groups: Groups, row: Row, domainOf: Row -> string): Groups {
    var d := domainOf(row);
    if !IsCandidate(d) then groups else groups[d := GroupAt(groups, d) + [EvidenceRow(row)]]
  }

  lemma GroupsStep(groups: Groups, rows: seq<Row>, row: Row, domainOf: Row -> string)
    requires GroupsOf(groups, rows, domainOf)
    ensures GroupsOf(GroupsWith(groups, row, domainOf), rows + [row], domainOf)
  {
    var d, after := domainOf(row), GroupsWith(groups, row, domainOf);
    DomainsAdd(rows, row, domainOf);
    if IsCandidate(d) {
      GroupAtIs(groups, rows, domainOf, d);
    }
    hide Group, Domains, IsCandidate, EvidenceRow, Elements, GroupAt;
    assert after.Keys == groups.Keys + (if IsCandidate(d) then {d} else {});
    forall other | other in after ensures after[other] == Group(rows + [row], domainOf, other) {
      GroupAdd(rows, row, domainOf, other);
    }
  }

  method GroupRows(rows: seq<Row>, domainOf: Row -> string) returns (groups: Groups)
    ensures GroupsOf(groups, rows, domainOf)
  {
    groups := map[];
    for i := 0 to |rows|
      invariant GroupsOf(groups, rows[..i], domainOf)
    {
      hide GroupsOf, IsCandidate;
      var domain := domainOf(rows[i]);
      assert rows[..i + 1] == rows[..i] + [rows[i]];
      GroupsStep(groups, rows[..i], rows[i], domainOf);
      if IsCandidate(domain) {
        groups := groups[domain := GroupAt(groups, domain) + [EvidenceRow(rows[i])]];
      }
    }
    assert rows[..|rows|] == rows;
  }

  method SortedSet(s: set<string>) returns (xs: seq<string>)
    ensures StrictlySorted(xs) && Elements(xs) == s
  {
    xs := [];
    var rest := s;
    while rest != {}
      invariant StrictlySorted(xs) && Elements(xs) + rest == s && Elements(xs) !! rest
      decreases |rest|
    {
      var x :| x in rest;
      InsertDistinctSorts(x, xs);
      xs := InsertDistinct(x, xs);
      rest := rest - {x};
    }
  }

  lemma SortedIs(xs: seq<string>, ys: seq<string>)
    requires StrictlySorted(xs) && Elements(xs) == Elements(ys)
    ensures xs == SortedDistinct(ys)
  {
    SortedDistinctSorts(ys);
    StrictlySortedUnique(xs, SortedDistinct(ys));
  }

  // ---------------------------------------------------------------- one candidate

  /** The receipts are those of the hits, each once, and more hits only ever add to their end. */
  lemma {:induction false} ReceiptsFirstSeen(hits: seq<Hit>)
    ensures var receipts := Receipts(hits);
            && (forall i, j | 0 <= i < j < |receipts| :: receipts[i] != receipts[j])
            && (forall r :: r in receipts <==> exists h :: h in hits && Receipt(h) == r)
            && (forall p | 0 <= p <= |hits| :: Receipts(hits[..p]) <= receipts)
  {
    hide Receipt;
    if hits == [] {
      assert hits[..0] == hits;
    } else {
      var n := |hits| - 1;
      var before := hits[..n];
      ReceiptsFirstSeen(before);
      assert hits == before + [hits[n]];
      assert Receipts(before) <= Receipts(hits);
      forall p | 0 <= p <= |hits| ensures Receipts(hits[..p]) <= Receipts(hits) {
        assert p <= n ==> before[..p] == hits[..p];
        assert p == |hits| ==> hits[..p] == hits;
      }
    }
  }

  /** _catalog_receipts: each receipt once, where it was first met. */
  method CatalogReceipts(hits: seq<Hit>) returns (receipts: seq<string>)
    ensures receipts == Receipts(hits)
    ensures forall i, j | 0 <= i < j < |receipts| :: receipts[i] != receipts[j]
    ensures forall r :: r in receipts <==> exists h :: h in hits && Receipt(h) == r
    ensures forall p | 0 <= p <= |hits| :: Receipts(hits[..p]) <= receipts
  {
    ReceiptsFirstSeen(hits);
    receipts := [];
    var seen: set<string> := {};
    for i := 0 to |hits|
      invariant receipts == Receipts(hits[..i]) && seen == Elements(receipts)
    {
      assert hits[..i + 1][..i] == hits[..i];
      var receipt := Receipt(hits[i]);
      if receipt !in seen {
        seen := seen + {receipt};
        receipts := receipts + [receipt];
      }
    }
    assert hits[..|hits|] == hits;
  }

  /** The confidence of a domain edge whose age is that of the earliest OTX observation. */
  method OtxConfidence(env: Environment, otx: seq<Evidence>, receipts: seq<string>, fetchedAt: string)
    returns (level: Level)
    requires Lawful(env.functions)
    ensures level == OtxLevel(env, otx, receipts, fetchedAt)
  {
    var edge := Edge("DOMAIN", Confirmations("", false, false), false, 0,
                     env.parseTime(MinOr(FirstSeenOf(otx), "")), env.parseTime(fetchedAt), receipts);
    hide EdgeLevel, EdgeReason;
    var why, factors;
    level, why, factors := ConfidenceForIocEdge(env.functions, env.decay, edge, env.now);
  }

  /** The body of the loop over the candidates. */
  method JudgeCandidate(env: Environment, domain: string, classified: Classified,
                        catalog: seq<Evidence>, otx: seq<Evidence>, hits: seq<Hit>) returns (r: Record)
    requires Lawful(env.functions)
    ensures r == Judge(env, domain, classified, catalog, otx, hits)
  {
    hide CandidateIoc, NonEmpty, Field, MinOr, MaxOr, OtxLevel, Receipts, SortBy, SortedDistinct, Lawful;
    var base := BaseRecord(env, domain, classified, SortBy(catalog + otx, EvidenceKey));
    var upstream := MaxIntOrZero(Confidences(catalog));
    if ExcludedFromExport(classified) && base.kind != UrlIoc {
      return base.(reason := Infrastructure(classified.class_), confidenceLevel := upstream,
                   confidence := UpstreamLevel(upstream));
    }
    var receipts := CatalogReceipts(hits);
    var sources := SortedDistinct(ReceiptSources(receipts));
    if catalog != [] {
      var confidence := UpstreamLevel(upstream);
      if otx != [] && hits != [] {
        confidence := OtxConfidence(env, otx, receipts, base.fetchedAt);
      }
      return WithEligibility(
        base.(reason := CatalogEvidence, confidenceLevel := upstream, confidence := confidence,
              corroboratingSources := if otx != [] then sources else [], otxCorroborated := hits != []),
        true);
    }
    if hits == [] {
      return base;
    }
    var level := OtxConfidence(env, otx, receipts, base.fetchedAt);
    var judged := base.(confidence := level, corroboratingSources := sources, otxCorroborated := true);
    if level.Index() < Medium.Index() {
      return judged.(reason := OtxBelowMedium(level), confidenceLevel := upstream);
    }
    return WithEligibility(
      judged.(reason := OtxCorroborated, confidenceLevel := MaxIntOrZero(HitConfidences(hits))), true);
  }

  // ---------------------------------------------------------------- the whole build

  lemma {:induction false} RecordsSplit(env: Environment, infra: seq<InfraRow>, catalogRows: seq<Row>,
                                        otxRows: seq<Row>, a: seq<string>, d: string)
    requires Lawful(env.functions)
    ensures Records(env, infra, catalogRows, otxRows, a + [d]) ==
            Records(env, infra, catalogRows, otxRows, a) + [RecordFor(env, infra, catalogRows, otxRows, d)]
  {
    hide RecordFor, Lawful;
    if a == [] {
      assert [d][1..] == [] && a + [d] == [d];
    } else {
      RecordsSplit(env, infra, catalogRows, otxRows, a[1..], d);
      assert (a + [d])[1..] == a[1..] + [d] && (a + [d])[0] == a[0];
      ConcatAssoc([RecordFor(env, infra, catalogRows, otxRows, a[0])],
                  Records(env, infra, catalogRows, otxRows, a[1..]), [RecordFor(env, infra, catalogRows, otxRows, d)]);
    }
  }

  lemma {:induction false} SelectSplit(a: seq<Record>, r: Record, eligible: bool)
    ensures Select(a + [r], eligible) ==
            if r.eligible == eligible then Select(a, eligible) + [r] else Select(a, eligible)
  {
    if a == [] {
      assert [r][1..] == [] && a + [r] == [r];
    } else {
      SelectSplit(a[1..], r, eligible);
      assert (a + [r])[1..] == a[1..] + [r] && (a + [r])[0] == a[0];
      ConcatAssoc(if a[0].eligible == eligible then [a[0]] else [], Select(a[1..], eligible),
                  if r.eligible == eligible then [r] else []);
    }
  }

  function DomainKey(r: Record): Key {
    [r.domain]
  }

  lemma {:induction false} SortOfSorted<T>(xs: seq<T>, key: T -> Key)
    requires Sorted(xs, key)
    ensures SortBy(xs, key) == xs
  {
    hide KeyLe;
    if xs != [] {
      SortOfSorted(xs[1..], key);
      assert |xs| > 1 ==> KeyLe(key(xs[0]), key(xs[1]));
      assert xs == [xs[0]] + xs[1..];
    }
  }

  lemma {:induction false} NamesAt(records: seq<Record>, i: nat)
    requires i < |records|
    ensures Names(records)[i] == records[i].domain
  {
    if i > 0 {
      NamesAt(records[1..], i - 1);
    }
  }

  /** The final sort by domain changes nothing, since the candidates are met in sorted order. */
  lemma SortChangesNothing(records: seq<Record>)
    requires StrictlySorted(Names(records))
    ensures SortBy(records, DomainKey) == records
  {
    hide StrLe;
    forall i, j | 0 <= i < j < |records| ensures KeyLe(DomainKey(records[i]), DomainKey(records[j])) {
      NamesAt(records, i);
      NamesAt(records, j);
      assert Names(records)[i] != Names(records)[j];
    }
    SortOfSorted(records, DomainKey);
  }

  /** What the loop over the candidates looks things up in. */
  ghost predicate Prepared(env: Environment, infra: seq<InfraRow>, catalogRows: seq<Row>, otxRows: seq<Row>,
                           index: Index, catalogByDomain: Groups, otxByDomain: Groups, hits: map<string, seq<Hit>>) {
    && index == IndexOf(infra, env.canonicalHost)
    && GroupsOf(catalogByDomain, catalogRows, r => CatalogDomain(env, r))
    && GroupsOf(otxByDomain, otxRows, r => OtxDomain(env, r))
    && hits == env.corroborate(SortedDistinct(Domains(otxRows, r => OtxDomain(env, r))),
                               ExcludedHosts(infra, env.canonicalHost))
  }

  /** The record of one candidate, looked up in the dictionaries. */
  method JudgeDomain(env: Environment, ghost infra: seq<InfraRow>, ghost catalogRows: seq<Row>, ghost otxRows: seq<Row>,
                     index: Index, catalogByDomain: Groups, otxByDomain: Groups, hits: map<string, seq<Hit>>,
                     domain: string) returns (record: Record)
    requires Lawful(env.functions) && IsCandidate(domain)
    requires Prepared(env, infra, catalogRows, otxRows, index, catalogByDomain, otxByDomain, hits)
    ensures record == RecordFor(env, infra, catalogRows, otxRows, domain)
  {
    hide Lawful, Judge, Group, Domains, IndexOf, ExcludedHosts, SortedDistinct, IsCandidate, GroupsOf, ClassifyHost;
    var key := env.lower(domain);
    record := JudgeCandidate(env, domain, ClassifyHost(domain, index, env.canonicalHost),
                             GroupAt(catalogByDomain, domain), GroupAt(otxByDomain, domain),
                             if key in hits then hits[key] else []);
    GroupAtIs(catalogByDomain, catalogRows, r => CatalogDomain(env, r), domain);
    GroupAtIs(otxByDomain, otxRows, r => OtxDomain(env, r), domain);
  }

  lemma UnionOfElements<T>(a: seq<T>, b: seq<T>)
    ensures Elements(a + b) == Elements(a) + Elements(b)
  {
  }

  lemma NoRecords(env: Environment, infra: seq<InfraRow>, catalogRows: seq<Row>, otxRows: seq<Row>)
    requires Lawful(env.functions)
    ensures Records(env, infra, catalogRows, otxRows, []) == [] && Select([], true) == [] && Select([], false) == []
  {
  }

  /** What one more candidate adds to the two lists. */
  lemma SelectStep(env: Environment, infra: seq<InfraRow>, catalogRows: seq<Row>, otxRows: seq<Row>,
                   candidates: seq<string>, i: nat, eligible: bool)
    requires Lawful(env.functions) && i < |candidates|
    ensures var r := RecordFor(env, infra, catalogRows, otxRows, candidates[i]);
            var before := Select(Records(env, infra, catalogRows, otxRows, candidates[..i]), eligible);
            Select(Records(env, infra, catalogRows, otxRows, candidates[..i + 1]), eligible) ==
            if r.eligible == eligible then before + [r] else before
  {
    hide Lawful, RecordFor, Records, Select;
    assert candidates[..i + 1] == candidates[..i] + [candidates[i]];
    RecordsSplit(env, infra, catalogRows, otxRows, candidates[..i], candidates[i]);
    SelectSplit(Records(env, infra, catalogRows, otxRows, candidates[..i]),
                RecordFor(env, infra, catalogRows, otxRows, candidates[i]), eligible);
  }

  /** The loop over the candidates. */
  method JudgeAll(env: Environment, ghost infra: seq<InfraRow>, ghost catalogRows: seq<Row>, ghost otxRows: seq<Row>,
                  index: Index, catalogByDomain: Groups, otxByDomain: Groups, hits: map<string, seq<Hit>>,
                  candidates: seq<string>) returns (domains: seq<Record>, excluded: seq<Record>)
    requires Lawful(env.functions) && forall d | d in candidates :: IsCandidate(d)
    requires Prepared(env, infra, catalogRows, otxRows, index, catalogByDomain, otxByDomain, hits)
    ensures domains == Select(Records(env, infra, catalogRows, otxRows, candidates), true)
    ensures excluded == Select(Records(env, infra, catalogRows, otxRows, candidates), false)
  {
    NoRecords(env, infra, catalogRows, otxRows);
    hide Lawful, RecordFor, IsCandidate, Records, Select, Prepared;
    domains, excluded := [], [];
    for i := 0 to |candidates|
      invariant domains == Select(Records(env, infra, catalogRows, otxRows, candidates[..i]), true)
      invariant excluded == Select(Records(env, infra, catalogRows, otxRows, candidates[..i]), false)
    {
      var record := JudgeDomain(env, infra, catalogRows, otxRows, index, catalogByDomain, otxByDomain, hits,
                                candidates[i]);
      SelectStep(env, infra, catalogRows, otxRows, candidates, i, true);
      SelectStep(env, infra, catalogRows, otxRows, candidates, i, false);
      if record.eligible {
        domains := domains + [record];
      } else {
        excluded := excluded + [record];
      }
    }
    assert candidates[..|candidates|] == candidates;
  }

  /** The keys of both dictionaries are the candidates. */
  lemma CandidatesAre(env: Environment, catalogRows: seq<Row>, otxRows: seq<Row>, catalogByDomain: Groups,
                      otxByDomain: Groups, candidates: seq<string>, otxDomains: seq<string>)
    requires GroupsOf(catalogByDomain, catalogRows, r => CatalogDomain(env, r))
    requires GroupsOf(otxByDomain, otxRows, r => OtxDomain(env, r))
    requires StrictlySorted(candidates) && Elements(candidates) == catalogByDomain.Keys + otxByDomain.Keys
    requires StrictlySorted(otxDomains) && Elements(otxDomains) == otxByDomain.Keys
    ensures candidates == CandidateDomains(env, catalogRows, otxRows)
    ensures otxDomains == SortedDistinct(Domains(otxRows, r => OtxDomain(env, r)))
    ensures forall d | d in candidates :: IsCandidate(d)
  {
    var c, o := Domains(catalogRows, r => CatalogDomain(env, r)), Domains(otxRows, r => OtxDomain(env, r));
    hide Domains, IsCandidate, StrictlySorted, Group, SortedDistinct;
    UnionOfElements(c, o);
    SortedIs(candidates, c + o);
    SortedIs(otxDomains, o);
    forall d | d in candidates ensures IsCandidate(d) {
      assert d in Elements(candidates);
    }
  }

  /** build_blocklist, given the rows that the three queries return. */
  method BuildBlocklist(env: Environment, infra: seq<InfraRow>, catalogRows: seq<Row>, otxRows: seq<Row>)
    returns (payload: Payload)
    requires Lawful(env.functions)
    ensures payload == Build(env, infra, catalogRows, otxRows)
  {
    hide Lawful, CandidateDomains, Domains, IndexOf, ExcludedHosts, SortedDistinct, Records, Select, CountIf,
         GroupsOf, Names, SortBy, IsCandidate, StrictlySorted;
    var index, excludedHosts := IndexInfra(infra, env.canonicalHost);
    var catalogByDomain := GroupRows(catalogRows, r => CatalogDomain(env, r));
    var otxByDomain := GroupRows(otxRows, r => OtxDomain(env, r));
    var otxDomains := SortedSet(otxByDomain.Keys);
    var candidates := SortedSet(catalogByDomain.Keys + otxByDomain.Keys);
    CandidatesAre(env, catalogRows, otxRows, catalogByDomain, otxByDomain, candidates, otxDomains);
    var hits := env.corroborate(otxDomains, excludedHosts);
    var domains, excluded :=
      JudgeAll(env, infra, catalogRows, otxRows, index, catalogByDomain, otxByDomain, hits, candidates);
    RecordsOf(env, infra, catalogRows, otxRows, candidates);
    SelectKeepsOrder(Records(env, infra, catalogRows, otxRows, candidates), true);
    SelectKeepsOrder(Records(env, infra, catalogRows, otxRows, candidates), false);
    SortChangesNothing(domains);
    SortChangesNothing(excluded);
    domains, excluded := SortBy(domains, DomainKey), SortBy(excluded, DomainKey);
    payload := PayloadOf(env, |candidates|, domains, excluded);
  }
}
