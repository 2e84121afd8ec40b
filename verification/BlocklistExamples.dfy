/** Concrete inputs on which the blocklist does not do what its documentation promises. */
module BlocklistExamples {
  import opened Ordering
  import opened Freshness
  import opened Confidence
  import opened Classification
  import opened Blocklist
  import opened BlocklistSoundness
  import opened BlocklistOrder
  import opened BlocklistRecord
  import opened BlocklistExport

  /** What the helpers do with the few texts below. */
  ghost predicate Usual(env: Environment) {
    && Lawful(env.functions)
    && env.strip("") == "" && env.strip("url") == "url" && env.lower("url") == "url"
    && env.strip("a.com") == "a.com" && env.strip("http://a.com/x") == "http://a.com/x"
    && env.canonicalHost("a.com") == "a.com" && env.canonicalHost("www.a.com") == "a.com"
    && !env.otxTypeIsUrl("DOMAIN") && !env.otxTypeIsUrl("HOSTNAME")
  }

  // ---------------------------------------------------------------- one URL row

  /** A URLhaus row: the host is a.com, and the URL is the given text. */
  function UrlRow(raw: string): Row {
    Row("urlhaus", "1", "url", raw, raw, "a.com", "", "", 100, "", "", "", "", "")
  }

  lemma Dotted()
    ensures IsCandidate("a.com")
  {
    assert "a.com"[1] == '.';
  }

  /** A single such row makes an exported record that is a URL, with the row's text. */
  lemma UrlRowExported(env: Environment, infra: seq<InfraRow>, raw: string) returns (r: Record)
    requires Usual(env)
    ensures r in Build(env, infra, [UrlRow(raw)], []).domains && r.domain == "a.com"
    ensures r.kind == UrlIoc && r.eligibleUrl && r.exactIoc == ExactIoc(env, EvidenceRow(UrlRow(raw)))
  {
    var row, d := UrlRow(raw), "a.com";
    var e := EvidenceRow(row);
    var catalog := [row];
    var ofCatalog := (x: Row) => CatalogDomain(env, x);
    Dotted();
    assert row in catalog && CatalogDomain(env, row) == d;
    CandidateOf(env, catalog, [], d);
    GroupOne(row, ofCatalog, d);
    var candidates := CandidateDomains(env, catalog, []);
    var classified := ClassifyHost(d, IndexOf(infra, env.canonicalHost), env.canonicalHost);
    var hits := HitsFor(env, infra, [], d);
    r := RecordFor(env, infra, catalog, [], d);
    assert r == Judge(env, d, classified, [e], [], hits);
    JudgeSound(env, d, classified, [e], [], hits);
    RecordSummarises(env, d, classified, [e], [], hits);
    assert [e] + [] == [e];
    SameMembers(r.evidence, [e]);
    ExactIocIsUpstream(env, r.evidence);
    assert KindOf(env, e) == UrlIoc && e in r.evidence;
    RecordsOf(env, infra, catalog, [], candidates);
    SelectMembers(Records(env, infra, catalog, [], candidates), true);
    RecordForKeepsDomain(env, infra, catalog, [], d);
    hide Judge, Records, CandidateDomains, Select, HitsFor, ClassifyHost, IndexOf, CandidateIoc, Lawful, Usual, KindOf;
  }

  /** A URL row whose text is blank: the URL list counts its record and does not print it. */
  lemma BlankUrlCounted(env: Environment)
    requires Usual(env)
    ensures var p := Build(env, [], [UrlRow("")], []);
            |TxtLines(p.domains, UrlMode, env.strip)| != EligibleCount(p.domains, UrlMode)
  {
    var p := Build(env, [], [UrlRow("")], []);
    var r := UrlRowExported(env, [], "");
    BuiltRecord(env, [], [UrlRow("")], [], r);
    HeaderCountIff(p, UrlMode, env.strip);
    assert env.strip(r.exactIoc) == "";
    hide Build, TxtLines, EligibleCount, MatchesMode, Usual;
  }

  /** A URL on an excluded host: mode `all` prints the host. */
  lemma ExcludedHostListed(env: Environment)
    requires Usual(env)
    ensures var infra := [InfraRow("a.com", SharedInfrastructure, true)];
            var p := Build(env, infra, [UrlRow("http://a.com/x")], []);
            ListsExcludedHost(env, infra, TxtLines(p.domains, AllMode, env.strip))
  {
    var infra := [InfraRow("a.com", SharedInfrastructure, true)];
    var rows := [UrlRow("http://a.com/x")];
    var r := UrlRowExported(env, infra, "http://a.com/x");
    assert LastNaming(infra, env.canonicalHost, "a.com", 0) && RowExcludes(infra[0]);
    assert LastRowExcludes(infra, env.canonicalHost, "a.com");
    ExportIsSound(env, infra, rows, [], r);
    DomainListIsClean(env, infra, rows, []);
    hide Build, TxtLines, Usual, LastRowExcludes;
  }

  // ---------------------------------------------------------------- row order

  /** A row of one OTX pulse. */
  function PulseRow(iocType: string, iocValue: string): Row {
    Row("", "", iocType, iocValue, iocValue, "", "", "", 0, "", "2026-01-01", "2026-01-02", "p", "")
  }

  /** Two rows of one pulse that name a domain in two ways tie: their order shows in the payload. */
  lemma PulseRowsTie(env: Environment)
    requires Usual(env)
    ensures !OrderInvisible(env, [], [], [PulseRow("DOMAIN", "a.com"), PulseRow("HOSTNAME", "www.a.com")])
  {
    hide Lawful, OrderInvisible, RowsAgree, CandidateDomains, Build;
    var r, s := PulseRow("DOMAIN", "a.com"), PulseRow("HOSTNAME", "www.a.com");
    var otx := [r, s];
    OrderInvisibleIff(env, [], [], otx);
    var ofOtx := (x: Row) => OtxDomain(env, x);
    Dotted();
    GroupSplits([r], [s], ofOtx, "a.com");
    GroupOne(r, ofOtx, "a.com");
    GroupOne(s, ofOtx, "a.com");
    assert otx == [r] + [s];
    var x, y := EvidenceRow(r), EvidenceRow(s);
    assert |"DOMAIN"| == 6 && |"HOSTNAME"| == 8;
    assert x.iocType != y.iocType && EvidenceKey(x) == EvidenceKey(y);
    var group := Group(otx, ofOtx, "a.com");
    assert group == [x] + [y] && x in group && y in group;
    assert !NoTies(group, EvidenceKey);
    hide Group, NoTies, IsCandidate, Usual;
  }

  /** Two infrastructure rows that name one host in two ways and disagree: their order shows too. */
  lemma InfraOrderShows(env: Environment)
    requires Usual(env)
    ensures var infra := [InfraRow("a.com", TrustedService, true), InfraRow("www.a.com", TrustedService, false)];
            !OrderInvisible(env, infra, [UrlRow("http://a.com/x")], [])
  {
    hide Lawful, OrderInvisible, CandidateDomains, NoTiesIn, Build;
    var r, s := InfraRow("a.com", TrustedService, true), InfraRow("www.a.com", TrustedService, false);
    var infra, catalog := [r, s], [UrlRow("http://a.com/x")];
    OrderInvisibleIff(env, infra, catalog, []);
    Dotted();
    assert catalog[0] in catalog && CatalogDomain(env, catalog[0]) == "a.com";
    CandidateOf(env, catalog, [], "a.com");
    assert infra[0] == r && infra[1] == s && r in infra && s in infra;
    assert !RowsAgree(infra, env.canonicalHost, "a.com");
    hide RowsAgree, Usual;
  }
}
