/**
 The blocklist payload as a function of the evidence rows (backend/blocklist/build.py).

 What build.py calls into is a parameter: the canonical form of a host, the host of a URL, the
 mirror lookup that corroborates OTX domains, timestamp parsing and the clock.
 */
module Blocklist {
  import opened Options
  import opened Ordering
  import opened Freshness
  import opened Confidence
  import opened Classification

  // ---------------------------------------------------------------- rows and evidence

  datatype Row = Row(
    source: string, refId: string, iocType: string, iocValue: string, rawIoc: string, hostIoc: string,
    malware: string, threatType: string, confidenceLevel: int, firstSeen: string, observedAt: string,
    fetchedAt: string, pulseId: string, description: string)

  datatype Evidence = Evidence(
    source: string, refId: string, iocType: string, iocValue: string, rawIoc: string, hostIoc: string,
    malware: string, threatType: string, confidenceLevel: int, firstSeen: string,
    fetchedAt: string, pulseId: string, description: string)

  /** A mirror row that corroborates a domain. */
  datatype Hit = Hit(source: string, refId: string, confidenceLevel: int)

  datatype Environment = Environment(
    strip: string -> string,
    lower: string -> string,
    canonicalHost: string -> string,
    urlHost: string -> string,
    otxTypeIsUrl: string -> bool,
    parseTime: string -> Option<real>,
    corroborate: (seq<string>, set<string>) -> map<string, seq<Hit>>,
    functions: Functions,
    decay: DecayConfig,
    now: real,
    generatedAt: string)

  function HostOr(env: Environment, row: Row): string {
    var host := env.strip(row.hostIoc);
    if host != "" then host else env.urlHost(row.iocValue)
  }

  function CatalogDomain(env: Environment, row: Row): string {
    if env.lower(env.strip(row.iocType)) == "url" then env.canonicalHost(HostOr(env, row))
    else env.canonicalHost(row.iocValue)
  }

  function OtxDomain(env: Environment, row: Row): string {
    if env.otxTypeIsUrl(row.iocType) then env.canonicalHost(HostOr(env, row))
    else env.canonicalHost(row.iocValue)
  }

  function OrElse(s: string, t: string): string {
    if s != "" then s else t
  }

  function EvidenceRow(row: Row): Evidence {
    Evidence(OrElse(row.source, if row.pulseId != "" then "otx" else ""), row.refId, row.iocType, row.iocValue,
             row.rawIoc, row.hostIoc, row.malware, row.threatType, row.confidenceLevel,
             OrElse(row.firstSeen, row.observedAt), row.fetchedAt, row.pulseId, row.description)
  }

  predicate IsCandidate(domain: string) {
    '.' in domain
  }

  /** The evidence of one domain, in the order of the rows. */
  function Group(rows: seq<Row>, domainOf: Row -> string, domain: string): seq<Evidence> {
    if rows == [] then []
    else (if domainOf(rows[0]) == domain then [EvidenceRow(rows[0])] else []) + Group(rows[1..], domainOf, domain)
  }

  /** The candidate domains of the rows, one entry for each row that has one. */
  function Domains(rows: seq<Row>, domainOf: Row -> string): seq<string> {
    if rows == [] then []
    else (if IsCandidate(domainOf(rows[0])) then [domainOf(rows[0])] else []) + Domains(rows[1..], domainOf)
  }

  function EvidenceKey(e: Evidence): Key {
    [e.source, e.refId, e.pulseId, e.firstSeen, e.fetchedAt]
  }

  function IocKey(e: Evidence): Key {
    [e.iocType, e.source, e.refId, e.rawIoc]
  }

  // ---------------------------------------------------------------- what is computed from evidence

  predicate HasScheme(s: string) {
    exists i | 0 <= i < |s| :: "://" <= s[i..]
  }

  function KindOf(env: Environment, e: Evidence): IocKind {
    if env.lower(env.strip(e.iocType)) == "url" || HasScheme(e.rawIoc) then UrlIoc else DomainIoc
  }

  function ExactIoc(env: Environment, e: Evidence): string {
    OrElse(env.strip(e.rawIoc), env.strip(e.iocValue))
  }

  function FirstUrl(env: Environment, evidence: seq<Evidence>): Option<Evidence> {
    if evidence == [] then None
    else if KindOf(env, evidence[0]) == UrlIoc then Some(evidence[0])
    else FirstUrl(env, evidence[1..])
  }

  /** The exact indicator of a candidate: a URL when there is one. */
  function CandidateIoc(env: Environment, evidence: seq<Evidence>): (IocKind, string) {
    var sorted := SortBy(evidence, IocKey);
    match FirstUrl(env, sorted)
    case Some(e) => (UrlIoc, ExactIoc(env, e))
    case None => (DomainIoc, if sorted == [] then "" else ExactIoc(env, sorted[0]))
  }

  function NonEmpty(xs: seq<string>): seq<string> {
    if xs == [] then [] else (if xs[0] != "" then [xs[0]] else []) + NonEmpty(xs[1..])
  }

  function Field(evidence: seq<Evidence>, field: Evidence -> string): seq<string> {
    if evidence == [] then [] else [field(evidence[0])] + Field(evidence[1..], field)
  }

  function MinOf(xs: seq<string>): string
    requires xs != []
  {
    if |xs| == 1 then xs[0]
    else
      var rest := MinOf(xs[1..]);
      if StrLe(xs[0], rest) then xs[0] else rest
  }

  function MaxOf(xs: seq<string>): string
    requires xs != []
  {
    if |xs| == 1 then xs[0]
    else
      var rest := MaxOf(xs[1..]);
      if StrLe(xs[0], rest) then rest else xs[0]
  }

  function MinOr(xs: seq<string>, default: string): string {
    if xs == [] then default else MinOf(xs)
  }

  function MaxOr(xs: seq<string>, default: string): string {
    if xs == [] then default else MaxOf(xs)
  }

  function FirstSeen(e: Evidence): string {
    e.firstSeen
  }

  function FetchedAt(e: Evidence): string {
    e.fetchedAt
  }

  function SourceName(e: Evidence): string {
    e.source
  }

  function Malware(e: Evidence): string {
    e.malware
  }

  function ThreatType(e: Evidence): string {
    e.threatType
  }

  function FirstSeenOf(evidence: seq<Evidence>): seq<string> {
    NonEmpty(Field(evidence, FirstSeen))
  }

  function MaxInt(xs: seq<int>): int
    requires xs != []
  {
    if |xs| == 1 then xs[0]
    else
      var rest := MaxInt(xs[1..]);
      if xs[0] <= rest then rest else xs[0]
  }

  function Confidences(evidence: seq<Evidence>): seq<int> {
    if evidence == [] then [] else [evidence[0].confidenceLevel] + Confidences(evidence[1..])
  }

  function HitConfidences(hits: seq<Hit>): seq<int> {
    if hits == [] then [] else [hits[0].confidenceLevel] + HitConfidences(hits[1..])
  }

  function MaxIntOrZero(xs: seq<int>): int {
    if xs == [] then 0 else MaxInt(xs)
  }

  function UpstreamLevel(confidence: int): Level {
    if confidence >= 80 then High else if confidence >= 50 then Medium else Low
  }

  function Receipt(h: Hit): string {
    h.source + ":" + h.refId
  }

  /** The receipts of the hits, the first of each kind, in order. */
  function Receipts(hits: seq<Hit>): seq<string> {
    if hits == [] then []
    else
      var before, r := Receipts(hits[..|hits| - 1]), Receipt(hits[|hits| - 1]);
      if r in before then before else before + [r]
  }

  function ReceiptSources(receipts: seq<string>): seq<string> {
    if receipts == [] then []
    else (if ':' in receipts[0] then [Prefix(receipts[0])] else []) + ReceiptSources(receipts[1..])
  }

  /** The confidence of a domain edge with the given OTX evidence and receipts. */
  function OtxLevel(env: Environment, otx: seq<Evidence>, receipts: seq<string>, fetchedAt: string): Level
    requires Lawful(env.functions)
  {
    var earliest := MinOr(FirstSeenOf(otx), "");
    EdgeLevel(env.functions, env.decay,
              Edge("DOMAIN", Confirmations("", false, false), false, 0,
                   env.parseTime(earliest), env.parseTime(fetchedAt), receipts),
              env.now)
  }

  // ---------------------------------------------------------------- records

  datatype Verdict =
    | Infrastructure(class_: InfraClass)
    | CatalogEvidence
    | OtxUncorroborated
    | OtxBelowMedium(level: Level)
    | OtxCorroborated

  datatype Record = Record(
    domain: string,
    kind: IocKind,
    exactIoc: string,
    eligible: bool,
    eligibleDomain: bool,
    eligibleUrl: bool,
    reason: Verdict,
    classified: Classified,
    sources: seq<string>,
    corroboratingSources: seq<string>,
    otxCorroborated: bool,
    evidence: seq<Evidence>,
    confidenceLevel: int,
    confidence: Level,
    malware: seq<string>,
    threatType: seq<string>,
    firstSeen: string,
    fetchedAt: string)

  /** The fields of a record that do not depend on the verdict. */
  function BaseRecord(env: Environment, domain: string, classified: Classified, evidence: seq<Evidence>): Record {
    var (kind, exact) := CandidateIoc(env, evidence);
    Record(domain, kind, exact, false, false, false, OtxUncorroborated, classified,
           SortedDistinct(NonEmpty(Field(evidence, SourceName))), [], false, evidence, 0, Low,
           SortedDistinct(NonEmpty(Field(evidence, Malware))),
           SortedDistinct(NonEmpty(Field(evidence, ThreatType))),
           MinOr(FirstSeenOf(evidence), env.generatedAt),
           MaxOr(NonEmpty(Field(evidence, FetchedAt)), env.generatedAt))
  }

  /** _candidate_record: the eligibility flags follow from the verdict and the classification. */
  function WithEligibility(r: Record, eligible: bool): Record {
    var (asDomain, asUrl) := ExportEligibility(eligible, r.classified, r.kind);
    r.(eligible := eligible, eligibleDomain := asDomain, eligibleUrl := asUrl)
  }

  /** The verdict on a candidate: what is known without one, and what counts for and against it. */
  function Decide(base: Record, inCatalog: bool, inOtx: bool, upstream: int, otxLevel: Level, hits: seq<Hit>): Record {
    var sources := SortedDistinct(ReceiptSources(Receipts(hits)));
    if ExcludedFromExport(base.classified) && base.kind != UrlIoc then
      base.(reason := Infrastructure(base.classified.class_), confidenceLevel := upstream,
            confidence := UpstreamLevel(upstream))
    else if inCatalog then
      WithEligibility(
        base.(reason := CatalogEvidence, confidenceLevel := upstream,
              confidence := if inOtx && hits != [] then otxLevel else UpstreamLevel(upstream),
              corroboratingSources := if inOtx then sources else [], otxCorroborated := hits != []),
        true)
    else if hits == [] then
      base
    else
      var judged := base.(confidence := otxLevel, corroboratingSources := sources, otxCorroborated := true);
      if otxLevel.Index() < Medium.Index() then
        judged.(reason := OtxBelowMedium(otxLevel), confidenceLevel := upstream)
      else
        WithEligibility(judged.(reason := OtxCorroborated, confidenceLevel := MaxIntOrZero(HitConfidences(hits))), true)
  }

  /** The record of one candidate domain, from its catalog and OTX evidence and its hits. */
  function Judge(env: Environment, domain: string, classified: Classified,
                 catalog: seq<Evidence>, otx: seq<Evidence>, hits: seq<Hit>): Record
    requires Lawful(env.functions)
  {
    var base := BaseRecord(env, domain, classified, SortBy(catalog + otx, EvidenceKey));
    Decide(base, catalog != [], otx != [], MaxIntOrZero(Confidences(catalog)),
           OtxLevel(env, otx, Receipts(hits), base.fetchedAt), hits)
  }

  // ---------------------------------------------------------------- the payload

  datatype Payload = Payload(
    generatedAt: string,
    candidateCount: nat, eligibleCount: nat, eligibleDomainCount: nat, eligibleUrlCount: nat, excludedCount: nat,
    domains: seq<Record>,
    excluded: seq<Record>)

  function CandidateDomains(env: Environment, catalogRows: seq<Row>, otxRows: seq<Row>): seq<string> {
    SortedDistinct(Domains(catalogRows, r => CatalogDomain(env, r)) + Domains(otxRows, r => OtxDomain(env, r)))
  }

  /** The hits of the corroboration lookup, which is asked for the sorted OTX domains. */
  function HitsFor(env: Environment, infra: seq<InfraRow>, otxRows: seq<Row>, domain: string): seq<Hit> {
    var hits := env.corroborate(SortedDistinct(Domains(otxRows, r => OtxDomain(env, r))),
                                ExcludedHosts(infra, env.canonicalHost));
    var key := env.lower(domain);
    if key in hits then hits[key] else []
  }

  function RecordFor(env: Environment, infra: seq<InfraRow>, catalogRows: seq<Row>, otxRows: seq<Row>,
                     domain: string): Record
    requires Lawful(env.functions)
  {
    Judge(env, domain, ClassifyHost(domain, IndexOf(infra, env.canonicalHost), env.canonicalHost),
          Group(catalogRows, r => CatalogDomain(env, r), domain), Group(otxRows, r => OtxDomain(env, r), domain),
          HitsFor(env, infra, otxRows, domain))
  }

  /** The records of all candidates, in the order of the candidates. */
  function Records(env: Environment, infra: seq<InfraRow>, catalogRows: seq<Row>, otxRows: seq<Row>,
                   candidates: seq<string>): seq<Record>
    requires Lawful(env.functions)
  {
    if candidates == [] then []
    else [RecordFor(env, infra, catalogRows, otxRows, candidates[0])] +
         Records(env, infra, catalogRows, otxRows, candidates[1..])
  }

  function Select(records: seq<Record>, eligible: bool): seq<Record> {
    if records == [] then []
    else (if records[0].eligible == eligible then [records[0]] else []) + Select(records[1..], eligible)
  }

  function CountIf(records: seq<Record>, p: Record -> bool): nat {
    if records == [] then 0 else (if p(records[0]) then 1 else 0) + CountIf(records[1..], p)
  }

  function PayloadOf(env: Environment, candidates: nat, domains: seq<Record>, excluded: seq<Record>): Payload {
    Payload(env.generatedAt, candidates, |domains|,
            CountIf(domains, (r: Record) => r.eligibleDomain), CountIf(domains, (r: Record) => r.eligibleUrl),
            |excluded|, domains, excluded)
  }

  /** build_blocklist, from the rows on. */
  function Build(env: Environment, infra: seq<InfraRow>, catalogRows: seq<Row>, otxRows: seq<Row>): Payload
    requires Lawful(env.functions)
  {
    var candidates := CandidateDomains(env, catalogRows, otxRows);
    var records := Records(env, infra, catalogRows, otxRows, candidates);
    PayloadOf(env, |candidates|, Select(records, true), Select(records, false))
  }
}
