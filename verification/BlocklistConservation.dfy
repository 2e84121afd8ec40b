/** No row is lost, and none is counted twice: where each query row ends up in the payload. */
module BlocklistConservation {
  import opened Ordering
  import opened Freshness
  import opened Classification
  import opened Blocklist
  import opened BlocklistSoundness
  import opened BlocklistOrder
  import opened BlocklistRecord
  import opened BlocklistOtx

  // ---------------------------------------------------------------- one row

  /** The evidence has the row's own values; a row without a source is OTX if it names a pulse. */
  ghost predicate Shows(e: Evidence, row: Row) {
    && e.source == (if row.source != "" then row.source else if row.pulseId != "" then "otx" else "")
    && e.refId == row.refId && e.pulseId == row.pulseId && e.description == row.description
    && e.iocType == row.iocType && e.iocValue == row.iocValue && e.rawIoc == row.rawIoc && e.hostIoc == row.hostIoc
    && e.malware == row.malware && e.threatType == row.threatType && e.confidenceLevel == row.confidenceLevel
    && e.firstSeen == (if row.firstSeen != "" then row.firstSeen else row.observedAt) && e.fetchedAt == row.fetchedAt
  }

  lemma {:induction false} GroupHas(rows: seq<Row>, domainOf: Row -> string, row: Row)
    requires row in rows
    ensures exists e :: e in Group(rows, domainOf, domainOf(row)) && Shows(e, row)
  {
    if row == rows[0] {
      assert Shows(EvidenceRow(row), row);
      assert EvidenceRow(row) in Group(rows, domainOf, domainOf(row));
    } else {
      GroupHas(rows[1..], domainOf, row);
      hide EvidenceRow, Shows;
      var e :| e in Group(rows[1..], domainOf, domainOf(row)) && Shows(e, row);
      assert e in Group(rows, domainOf, domainOf(row));
    }
  }

  lemma EvidenceIsGroups(env: Environment, infra: seq<InfraRow>, catalogRows: seq<Row>, otxRows: seq<Row>,
                         domain: string)
    requires Lawful(env.functions)
    ensures var r := RecordFor(env, infra, catalogRows, otxRows, domain);
            && multiset(r.evidence) == multiset(CatalogEvidenceOf(env, catalogRows, domain) +
                                                OtxEvidence(env, otxRows, domain))
            && forall i, j | 0 <= i < j < |r.evidence| ::
                 KeyLe([r.evidence[i].source, r.evidence[i].refId, r.evidence[i].pulseId,
                        r.evidence[i].firstSeen, r.evidence[i].fetchedAt],
                       [r.evidence[j].source, r.evidence[j].refId, r.evidence[j].pulseId,
                        r.evidence[j].firstSeen, r.evidence[j].fetchedAt])
  {
    var catalog, otx := CatalogEvidenceOf(env, catalogRows, domain), OtxEvidence(env, otxRows, domain);
    JudgeSound(env, domain, ClassifyHost(domain, IndexOf(infra, env.canonicalHost), env.canonicalHost),
               catalog, otx, HitsFor(env, infra, otxRows, domain));
    SortBySorts(catalog + otx, EvidenceKey);
    hide Judge, Group, SortBy, HitsFor, ClassifyHost, IndexOf, Lawful, KeyLe;
  }

  /** The one record of a candidate holds all the evidence of both groups, and is listed. */
  lemma RecordHolds(env: Environment, infra: seq<InfraRow>, catalogRows: seq<Row>, otxRows: seq<Row>,
                    domain: string, e: Evidence)
    requires Lawful(env.functions) && domain in CandidateDomains(env, catalogRows, otxRows)
    requires e in CatalogEvidenceOf(env, catalogRows, domain) || e in OtxEvidence(env, otxRows, domain)
    ensures var p, r := Build(env, infra, catalogRows, otxRows), RecordFor(env, infra, catalogRows, otxRows, domain);
            (r in p.domains || r in p.excluded) && r.domain == domain && e in r.evidence
  {
    hide RecordFor, Build, CandidateDomains, Lawful, KeyLe, CatalogEvidenceOf, OtxEvidence;
    RecordIsListed(env, infra, catalogRows, otxRows, domain);
    EvidenceIsGroups(env, infra, catalogRows, otxRows, domain);
    var r := RecordFor(env, infra, catalogRows, otxRows, domain);
    SameMembers(r.evidence, CatalogEvidenceOf(env, catalogRows, domain) + OtxEvidence(env, otxRows, domain));
  }

  /**
   A catalog row whose host is a domain is evidence of exactly that domain's record: for a URL the
   stored host, or else the host of the value; for anything else the value.
   */
  lemma CatalogRowIsKept(env: Environment, infra: seq<InfraRow>, catalogRows: seq<Row>, otxRows: seq<Row>, row: Row)
    returns (r: Record, e: Evidence)
    requires Lawful(env.functions) && row in catalogRows && IsCandidate(CatalogDomain(env, row))
    ensures var stored := env.strip(row.hostIoc);
            var host := if env.lower(env.strip(row.iocType)) != "url" then row.iocValue
                        else if stored != "" then stored else env.urlHost(row.iocValue);
            var p := Build(env, infra, catalogRows, otxRows);
            && (r in p.domains || r in p.excluded) && r.domain == env.canonicalHost(host)
            && e in r.evidence && Shows(e, row)
  {
    var ofCatalog := (r: Row) => CatalogDomain(env, r);
    var domain := ofCatalog(row);
    GroupHas(catalogRows, ofCatalog, row);
    CandidateOf(env, catalogRows, otxRows, domain);
    hide Group, Shows, Build, CandidateDomains, Lawful, RecordFor;
    r := RecordFor(env, infra, catalogRows, otxRows, domain);
    e :| e in CatalogEvidenceOf(env, catalogRows, domain) && Shows(e, row);
    RecordHolds(env, infra, catalogRows, otxRows, domain, e);
  }

  /** The same of an OTX row; which types are URLs is for the canonical type to say. */
  lemma OtxRowIsKept(env: Environment, infra: seq<InfraRow>, catalogRows: seq<Row>, otxRows: seq<Row>, row: Row)
    returns (r: Record, e: Evidence)
    requires Lawful(env.functions) && row in otxRows && IsCandidate(OtxDomain(env, row))
    ensures var stored := env.strip(row.hostIoc);
            var host := if !env.otxTypeIsUrl(row.iocType) then row.iocValue
                        else if stored != "" then stored else env.urlHost(row.iocValue);
            var p := Build(env, infra, catalogRows, otxRows);
            && (r in p.domains || r in p.excluded) && r.domain == env.canonicalHost(host)
            && e in r.evidence && Shows(e, row)
  {
    var ofOtx := (r: Row) => OtxDomain(env, r);
    var domain := ofOtx(row);
    GroupHas(otxRows, ofOtx, row);
    CandidateOf(env, catalogRows, otxRows, domain);
    hide Group, Shows, Build, CandidateDomains, Lawful, RecordFor;
    r := RecordFor(env, infra, catalogRows, otxRows, domain);
    e :| e in OtxEvidence(env, otxRows, domain) && Shows(e, row);
    RecordHolds(env, infra, catalogRows, otxRows, domain, e);
  }

  // ---------------------------------------------------------------- all rows

  /** How much evidence some records hold together. */
  function EvidenceCount(records: seq<Record>): nat {
    if records == [] then 0 else |records[0].evidence| + EvidenceCount(records[1..])
  }

  /** How much evidence the rows have for the given domains together. */
  function GroupSizes(rows: seq<Row>, domainOf: Row -> string, domains: seq<string>): nat {
    if domains == [] then 0 else |Group(rows, domainOf, domains[0])| + GroupSizes(rows, domainOf, domains[1..])
  }

  /** The first row is counted once for each time its domain is among the given ones. */
  lemma {:induction false} FirstRowCounts(rows: seq<Row>, domainOf: Row -> string, domains: seq<string>)
    requires rows != []
    ensures GroupSizes(rows, domainOf, domains) ==
            GroupSizes(rows[1..], domainOf, domains) + multiset(domains)[domainOf(rows[0])]
  {
    if domains != [] {
      FirstRowCounts(rows, domainOf, domains[1..]);
      assert domains == [domains[0]] + domains[1..];
    }
  }

  lemma OnceEach(domains: seq<string>, d: string)
    requires StrictlySorted(domains)
    ensures multiset(domains)[d] == if d in domains then 1 else 0
    decreases |domains|
  {
    hide StrLe;
    if domains != [] {
      var tail := domains[1..];
      assert domains == [domains[0]] + tail;
      forall i, j | 0 <= i < j < |tail| ensures StrLe(tail[i], tail[j]) && tail[i] != tail[j] {
        assert tail[i] == domains[i + 1] && tail[j] == domains[j + 1];
      }
      OnceEach(tail, d);
      assert domains[0] !in tail;
    }
  }

  /** Over distinct domains that hold all candidates, each candidate row is counted once. */
  lemma {:induction false} GroupsPartition(rows: seq<Row>, domainOf: Row -> string, domains: seq<string>)
    requires StrictlySorted(domains) && forall d | d in domains :: IsCandidate(d)
    requires forall d | d in Domains(rows, domainOf) :: d in domains
    ensures GroupSizes(rows, domainOf, domains) == |Domains(rows, domainOf)|
    decreases |rows|
  {
    hide StrictlySorted, IsCandidate;
    if rows == [] {
      NoGroups(domainOf, domains);
    } else {
      FirstRowCounts(rows, domainOf, domains);
      OnceEach(domains, domainOf(rows[0]));
      GroupsPartition(rows[1..], domainOf, domains);
    }
  }

  lemma {:induction false} NoGroups(domainOf: Row -> string, domains: seq<string>)
    ensures GroupSizes([], domainOf, domains) == 0
  {
    if domains != [] {
      NoGroups(domainOf, domains[1..]);
    }
  }

  lemma {:induction false} SelectCountsEvidence(records: seq<Record>)
    ensures EvidenceCount(Select(records, true)) + EvidenceCount(Select(records, false)) == EvidenceCount(records)
  {
    if records != [] {
      SelectCountsEvidence(records[1..]);
      SelectCons(records[0], records[1..]);
      assert records == [records[0]] + records[1..];
    }
  }

  lemma {:induction false} RecordsCount(env: Environment, infra: seq<InfraRow>, catalogRows: seq<Row>,
                                        otxRows: seq<Row>, candidates: seq<string>)
    requires Lawful(env.functions)
    ensures EvidenceCount(Records(env, infra, catalogRows, otxRows, candidates)) ==
            GroupSizes(catalogRows, r => CatalogDomain(env, r), candidates) +
            GroupSizes(otxRows, r => OtxDomain(env, r), candidates)
  {
    hide RecordFor, Lawful, Group, CatalogDomain, OtxDomain;
    if candidates != [] {
      var d, tail := candidates[0], candidates[1..];
      var r := RecordFor(env, infra, catalogRows, otxRows, d);
      RecordsCount(env, infra, catalogRows, otxRows, tail);
      EvidenceIsGroups(env, infra, catalogRows, otxRows, d);
      hide KeyLe;
      SameMembers(r.evidence, CatalogEvidenceOf(env, catalogRows, d) + OtxEvidence(env, otxRows, d));
      var rest := Records(env, infra, catalogRows, otxRows, tail);
      assert Records(env, infra, catalogRows, otxRows, candidates) == [r] + rest;
      assert ([r] + rest)[1..] == rest;
    }
  }

  /**
   Conservation: the records of the payload, exported and excluded, hold exactly one piece of evidence
   for each catalog row and each OTX row whose host is a domain.
   */
  lemma EvidenceIsConserved(env: Environment, infra: seq<InfraRow>, catalogRows: seq<Row>, otxRows: seq<Row>)
    requires Lawful(env.functions)
    ensures var p := Build(env, infra, catalogRows, otxRows);
            EvidenceCount(p.domains) + EvidenceCount(p.excluded) ==
            |Domains(catalogRows, r => CatalogDomain(env, r))| + |Domains(otxRows, r => OtxDomain(env, r))|
  {
    var ofCatalog, ofOtx := (r: Row) => CatalogDomain(env, r), (r: Row) => OtxDomain(env, r);
    var c, o := Domains(catalogRows, ofCatalog), Domains(otxRows, ofOtx);
    var candidates := SortedDistinct(c + o);
    SortedDistinctSorts(c + o);
    DomainsMembers(catalogRows, ofCatalog);
    DomainsMembers(otxRows, ofOtx);
    hide SortedDistinct, Records, Lawful, Domains, StrictlySorted, IsCandidate, CatalogDomain, OtxDomain;
    assert forall d :: d in candidates <==> d in Elements(candidates);
    assert forall d :: d in c + o <==> d in Elements(c + o);
    GroupsPartition(catalogRows, ofCatalog, candidates);
    GroupsPartition(otxRows, ofOtx, candidates);
    RecordsCount(env, infra, catalogRows, otxRows, candidates);
    SelectCountsEvidence(Records(env, infra, catalogRows, otxRows, candidates));
  }
}
