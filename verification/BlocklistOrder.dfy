/** When the order in which the queries return their rows can be seen in the payload. */
module BlocklistOrder {
  import opened Ordering
  import opened Freshness
  import opened Confidence
  import opened Classification
  import opened Blocklist
  import opened BlocklistSoundness

  // ---------------------------------------------------------------- grouping under permutation

  lemma {:induction false} GroupSplits(a: seq<Row>, b: seq<Row>, domainOf: Row -> string, domain: string)
    ensures Group(a + b, domainOf, domain) == Group(a, domainOf, domain) + Group(b, domainOf, domain)
  {
    if a == [] {
      assert a + b == b;
    } else {
      hide EvidenceRow;
      GroupSplits(a[1..], b, domainOf, domain);
      assert (a + b)[1..] == a[1..] + b && (a + b)[0] == a[0];
      ConcatAssoc(if domainOf(a[0]) == domain then [EvidenceRow(a[0])] else [],
                  Group(a[1..], domainOf, domain), Group(b, domainOf, domain));
    }
  }

  lemma GroupOne(r: Row, domainOf: Row -> string, domain: string)
    ensures Group([r], domainOf, domain) == if domainOf(r) == domain then [EvidenceRow(r)] else []
  {
    assert Group([r][1..], domainOf, domain) == [];
  }

  /** The position of a row in a permutation, and what is left without it. */
  lemma TakeOut<T>(rows: seq<T>, rows': seq<T>) returns (j: nat)
    requires rows != [] && multiset(rows) == multiset(rows')
    ensures j < |rows'| && rows'[j] == rows[0]
    ensures multiset(rows[1..]) == multiset(rows'[..j] + rows'[j + 1..])
    ensures rows' == rows'[..j] + ([rows[0]] + rows'[j + 1..])
  {
    assert rows == [rows[0]] + rows[1..];
    assert rows[0] in multiset(rows');
    j :| 0 <= j < |rows'| && rows'[j] == rows[0];
    assert rows' == rows'[..j] + ([rows[0]] + rows'[j + 1..]);
    assert multiset(rows') == multiset{rows[0]} + multiset(rows'[..j] + rows'[j + 1..]);
    assert multiset(rows) == multiset{rows[0]} + multiset(rows[1..]);
    assert multiset(rows[1..]) == multiset(rows) - multiset{rows[0]};
  }

  /** Permuting the rows permutes the evidence of every domain. */
  lemma {:induction false} GroupPermutes(rows: seq<Row>, rows': seq<Row>, domainOf: Row -> string, domain: string)
    requires multiset(rows) == multiset(rows')
    ensures multiset(Group(rows, domainOf, domain)) == multiset(Group(rows', domainOf, domain))
    decreases |rows|
  {
    if rows == [] {
      assert |multiset(rows')| == 0;
    } else {
      var j := TakeOut(rows, rows');
      var a, b, one := rows'[..j], rows'[j + 1..], [rows[0]];
      GroupPermutes(rows[1..], a + b, domainOf, domain);
      GroupSplits(a, b, domainOf, domain);
      GroupSplits(a, one + b, domainOf, domain);
      GroupSplits(one, b, domainOf, domain);
      GroupSplits(one, rows[1..], domainOf, domain);
      assert rows == one + rows[1..];
    }
  }

  lemma {:induction false} DomainsMembers(rows: seq<Row>, domainOf: Row -> string)
    ensures forall d :: d in Domains(rows, domainOf) <==>
              IsCandidate(d) && exists r :: r in rows && domainOf(r) == d
  {
    hide IsCandidate;
    if rows != [] {
      DomainsMembers(rows[1..], domainOf);
      assert forall r :: r in rows <==> r == rows[0] || r in rows[1..];
    }
  }

  lemma SameMembers<T>(a: seq<T>, b: seq<T>)
    requires multiset(a) == multiset(b)
    ensures forall x :: x in a <==> x in b
    ensures |a| == |b|
  {
    assert forall x :: x in a <==> x in multiset(a);
    assert forall x :: x in b <==> x in multiset(b);
    assert |multiset(a)| == |a| && |multiset(b)| == |b|;
  }

  lemma DomainsPermute(rows: seq<Row>, rows': seq<Row>, domainOf: Row -> string)
    requires multiset(rows) == multiset(rows')
    ensures Elements(Domains(rows, domainOf)) == Elements(Domains(rows', domainOf))
  {
    SameMembers(rows, rows');
    DomainsMembers(rows, domainOf);
    DomainsMembers(rows', domainOf);
  }

  // ---------------------------------------------------------------- what is computed from a permuted group

  lemma {:induction false} NonEmptyMembers(evidence: seq<Evidence>, field: Evidence -> string)
    ensures forall t :: t in NonEmpty(Field(evidence, field)) <==> t != "" && exists e :: e in evidence && field(e) == t
  {
    if evidence != [] {
      NonEmptyMembers(evidence[1..], field);
      assert Field(evidence, field)[1..] == Field(evidence[1..], field);
      assert forall e :: e in evidence <==> e == evidence[0] || e in evidence[1..];
    }
  }

  lemma {:induction false} MinOfIs(xs: seq<string>)
    requires xs != []
    ensures MinOf(xs) in xs && forall x | x in xs :: StrLe(MinOf(xs), x)
  {
    StrOrder();
    hide StrLe;
    if |xs| > 1 {
      MinOfIs(xs[1..]);
      assert forall x :: x in xs <==> x == xs[0] || x in xs[1..];
    }
  }

  lemma EarliestPermutes(a: seq<Evidence>, b: seq<Evidence>)
    requires multiset(a) == multiset(b)
    ensures MinOr(FirstSeenOf(a), "") == MinOr(FirstSeenOf(b), "")
  {
    var x, y := FirstSeenOf(a), FirstSeenOf(b);
    SameMembers(a, b);
    NonEmptyMembers(a, FirstSeen);
    NonEmptyMembers(b, FirstSeen);
    assert forall t :: t in x <==> t in y;
    assert x != [] ==> x[0] in y;
    assert y != [] ==> y[0] in x;
    if x != [] {
      MinOfIs(x);
      MinOfIs(y);
      StrOrder();
    }
  }

  lemma {:induction false} ConfidenceMembers(evidence: seq<Evidence>)
    ensures forall c :: c in Confidences(evidence) <==> exists e :: e in evidence && e.confidenceLevel == c
    ensures |Confidences(evidence)| == |evidence|
  {
    if evidence != [] {
      ConfidenceMembers(evidence[1..]);
      assert forall e :: e in evidence <==> e == evidence[0] || e in evidence[1..];
    }
  }

  lemma {:induction false} MaxIntIs(xs: seq<int>)
    requires xs != []
    ensures MaxInt(xs) in xs && forall x | x in xs :: x <= MaxInt(xs)
  {
    if |xs| > 1 {
      MaxIntIs(xs[1..]);
      assert forall x :: x in xs <==> x == xs[0] || x in xs[1..];
    }
  }

  lemma UpstreamPermutes(a: seq<Evidence>, b: seq<Evidence>)
    requires multiset(a) == multiset(b)
    ensures MaxIntOrZero(Confidences(a)) == MaxIntOrZero(Confidences(b))
  {
    SameMembers(a, b);
    ConfidenceMembers(a);
    ConfidenceMembers(b);
    assert forall c :: c in Confidences(a) <==> c in Confidences(b);
    if a != [] {
      MaxIntIs(Confidences(a));
      MaxIntIs(Confidences(b));
    }
  }

  /** Stable sorting of the concatenated evidence hides permutations within each of its two parts,
      when neither part has ties; ties between the parts do not matter. */
  lemma EvidencePermutes(c: seq<Evidence>, o: seq<Evidence>, c': seq<Evidence>, o': seq<Evidence>)
    requires multiset(c) == multiset(c') && multiset(o) == multiset(o')
    requires NoTies(c, EvidenceKey) && NoTies(o, EvidenceKey)
    ensures SortBy(c + o, EvidenceKey) == SortBy(c' + o', EvidenceKey)
  {
    SortBySorts(c + o, EvidenceKey);
    SortBySorts(c' + o', EvidenceKey);
    forall k
      ensures Class(SortBy(c + o, EvidenceKey), EvidenceKey, k) ==
              Class(SortBy(c' + o', EvidenceKey), EvidenceKey, k)
    {
      ClassSplits(c, o, EvidenceKey, k);
      ClassSplits(c', o', EvidenceKey, k);
      PermutedClass(c, c', EvidenceKey, k);
      PermutedClass(o, o', EvidenceKey, k);
    }
    SortedUnique(SortBy(c + o, EvidenceKey), SortBy(c' + o', EvidenceKey), EvidenceKey);
  }

  lemma JudgePermutes(env: Environment, domain: string, classified: Classified, hits: seq<Hit>,
                      c: seq<Evidence>, o: seq<Evidence>, c': seq<Evidence>, o': seq<Evidence>)
    requires Lawful(env.functions)
    requires multiset(c) == multiset(c') && multiset(o) == multiset(o')
    requires NoTies(c, EvidenceKey) && NoTies(o, EvidenceKey)
    ensures Judge(env, domain, classified, c, o, hits) == Judge(env, domain, classified, c', o', hits)
  {
    EvidencePermutes(c, o, c', o');
    UpstreamPermutes(c, c');
    EarliestPermutes(o, o');
    SameMembers(c, c');
    SameMembers(o, o');
    hide BaseRecord, Decide, Receipts, EdgeLevel, SortBy, Confidences, FirstSeenOf, Lawful, NoTies, MaxIntOrZero, MinOr;
  }

  // ---------------------------------------------------------------- order independence

  /** No two different evidence rows of one candidate domain share their sort key. */
  ghost predicate NoTiesIn(rows: seq<Row>, domainOf: Row -> string) {
    forall d :: IsCandidate(d) ==> NoTies(Group(rows, domainOf, d), EvidenceKey)
  }

  /** All rows that name the host say the same of it. */
  ghost predicate RowsAgree(infra: seq<InfraRow>, canonicalHost: string -> string, host: string) {
    canonicalHost(host) != "" ==>
      forall r, s | r in infra && s in infra &&
                    canonicalHost(r.host) == canonicalHost(host) && canonicalHost(s.host) == canonicalHost(host) ::
        r.class_ == s.class_ && r.enabled == s.enabled
  }

  /** The rows that name a host can be permuted if they agree on it. */
  lemma ClassificationPermutes(infra: seq<InfraRow>, infra': seq<InfraRow>, canonicalHost: string -> string,
                               host: string)
    requires multiset(infra) == multiset(infra') && RowsAgree(infra, canonicalHost, host)
    ensures ClassifyHost(host, IndexOf(infra, canonicalHost), canonicalHost) ==
            ClassifyHost(host, IndexOf(infra', canonicalHost), canonicalHost)
  {
    var canon := canonicalHost(host);
    SameMembers(infra, infra');
    LastRowWins(infra, canonicalHost, canon);
    LastRowWins(infra', canonicalHost, canon);
    hide IndexOf;
    assert forall i | 0 <= i < |infra| :: infra[i] in infra';
    assert forall i | 0 <= i < |infra'| :: infra'[i] in infra;
    if i :| 0 <= i < |infra| && canonicalHost(infra[i].host) == canon {
      var j :| 0 <= j < |infra'| && infra'[j] == infra[i];
    }
    if i :| 0 <= i < |infra'| && canonicalHost(infra'[i].host) == canon {
      var j :| 0 <= j < |infra| && infra[j] == infra'[i];
    }
  }

  lemma ExcludedHostsPermute(infra: seq<InfraRow>, infra': seq<InfraRow>, canonicalHost: string -> string)
    requires multiset(infra) == multiset(infra')
    ensures ExcludedHosts(infra, canonicalHost) == ExcludedHosts(infra', canonicalHost)
  {
    SameMembers(infra, infra');
    hide ExcludedHosts;
    forall h ensures h in ExcludedHosts(infra, canonicalHost) <==> h in ExcludedHosts(infra', canonicalHost) {
      AnyRowExcludes(infra, canonicalHost, h);
      AnyRowExcludes(infra', canonicalHost, h);
      if i :| 0 <= i < |infra| && canonicalHost(infra[i].host) == h && RowExcludes(infra[i]) {
        assert infra[i] in infra';
        var j :| 0 <= j < |infra'| && infra'[j] == infra[i];
      }
      if i :| 0 <= i < |infra'| && canonicalHost(infra'[i].host) == h && RowExcludes(infra'[i]) {
        assert infra'[i] in infra;
        var j :| 0 <= j < |infra| && infra[j] == infra'[i];
      }
    }
  }

  lemma {:induction false} RecordsAgree(env: Environment, infra: seq<InfraRow>, catalog: seq<Row>, otx: seq<Row>,
                                        infra': seq<InfraRow>, catalog': seq<Row>, otx': seq<Row>,
                                        candidates: seq<string>)
    requires Lawful(env.functions)
    requires forall d | d in candidates ::
               RecordFor(env, infra, catalog, otx, d) == RecordFor(env, infra', catalog', otx', d)
    ensures Records(env, infra, catalog, otx, candidates) == Records(env, infra', catalog', otx', candidates)
  {
    hide RecordFor, Lawful;
    if candidates != [] {
      RecordsAgree(env, infra, catalog, otx, infra', catalog', otx', candidates[1..]);
    }
  }

  lemma CandidatesPermute(env: Environment, infra: seq<InfraRow>, catalog: seq<Row>, otx: seq<Row>,
                          infra': seq<InfraRow>, catalog': seq<Row>, otx': seq<Row>)
    requires multiset(infra) == multiset(infra')
    requires multiset(catalog) == multiset(catalog') && multiset(otx) == multiset(otx')
    ensures CandidateDomains(env, catalog, otx) == CandidateDomains(env, catalog', otx')
    ensures forall d :: HitsFor(env, infra, otx, d) == HitsFor(env, infra', otx', d)
    ensures forall d | d in CandidateDomains(env, catalog, otx) :: IsCandidate(d)
  {
    var ofCatalog, ofOtx := (r: Row) => CatalogDomain(env, r), (r: Row) => OtxDomain(env, r);
    ExcludedHostsPermute(infra, infra', env.canonicalHost);
    DomainsPermute(catalog, catalog', ofCatalog);
    DomainsPermute(otx, otx', ofOtx);
    var c, o := Domains(catalog, ofCatalog), Domains(otx, ofOtx);
    var c', o' := Domains(catalog', ofCatalog), Domains(otx', ofOtx);
    assert Elements(c + o) == Elements(c) + Elements(o) && Elements(c' + o') == Elements(c') + Elements(o');
    SortedDistinctSame(c + o, c' + o');
    SortedDistinctSame(o, o');
    SortedDistinctSorts(c + o);
    DomainsMembers(catalog, ofCatalog);
    DomainsMembers(otx, ofOtx);
    assert CandidateDomains(env, catalog, otx) == SortedDistinct(c + o);
    assert CandidateDomains(env, catalog', otx') == SortedDistinct(c' + o');
    hide SortedDistinct, Domains, IsCandidate, CatalogDomain, OtxDomain, ExcludedHosts;
    forall d | d in CandidateDomains(env, catalog, otx) ensures IsCandidate(d) {
      assert d in Elements(c + o);
    }
  }

  lemma RecordPermutes(env: Environment, infra: seq<InfraRow>, catalog: seq<Row>, otx: seq<Row>,
                       infra': seq<InfraRow>, catalog': seq<Row>, otx': seq<Row>, d: string)
    requires Lawful(env.functions) && IsCandidate(d)
    requires multiset(infra) == multiset(infra') && RowsAgree(infra, env.canonicalHost, d)
    requires multiset(catalog) == multiset(catalog') && multiset(otx) == multiset(otx')
    requires NoTiesIn(catalog, r => CatalogDomain(env, r)) && NoTiesIn(otx, r => OtxDomain(env, r))
    ensures RecordFor(env, infra, catalog, otx, d) == RecordFor(env, infra', catalog', otx', d)
  {
    var ofCatalog, ofOtx := (r: Row) => CatalogDomain(env, r), (r: Row) => OtxDomain(env, r);
    GroupPermutes(catalog, catalog', ofCatalog, d);
    GroupPermutes(otx, otx', ofOtx, d);
    CandidatesPermute(env, infra, catalog, otx, infra', catalog', otx');
    ClassificationPermutes(infra, infra', env.canonicalHost, d);
    JudgePermutes(env, d, ClassifyHost(d, IndexOf(infra, env.canonicalHost), env.canonicalHost),
                  HitsFor(env, infra, otx, d),
                  Group(catalog, ofCatalog, d), Group(otx, ofOtx, d),
                  Group(catalog', ofCatalog, d), Group(otx', ofOtx, d));
    hide Judge, Group, HitsFor, ClassifyHost, IndexOf, Lawful, CandidateDomains, RowsAgree;
  }

  /**
   Order independence: whatever order the three queries return their rows in, the whole payload is
   the same, provided no two different evidence rows of one domain tie within one query, and the
   infrastructure rows that name a candidate agree on it.
   */
  lemma OrderIndependence(env: Environment, infra: seq<InfraRow>, catalog: seq<Row>, otx: seq<Row>,
                          infra': seq<InfraRow>, catalog': seq<Row>, otx': seq<Row>)
    requires Lawful(env.functions) && multiset(infra) == multiset(infra')
    requires multiset(catalog) == multiset(catalog') && multiset(otx) == multiset(otx')
    requires NoTiesIn(catalog, r => CatalogDomain(env, r)) && NoTiesIn(otx, r => OtxDomain(env, r))
    requires forall d | d in CandidateDomains(env, catalog, otx) :: RowsAgree(infra, env.canonicalHost, d)
    ensures Build(env, infra, catalog, otx) == Build(env, infra', catalog', otx')
  {
    var candidates := CandidateDomains(env, catalog, otx);
    CandidatesPermute(env, infra, catalog, otx, infra', catalog', otx');
    forall d | d in candidates
      ensures RecordFor(env, infra, catalog, otx, d) == RecordFor(env, infra', catalog', otx', d)
    {
      RecordPermutes(env, infra, catalog, otx, infra', catalog', otx', d);
    }
    RecordsAgree(env, infra, catalog, otx, infra', catalog', otx', candidates);
    hide CandidateDomains, Records, Lawful, NoTiesIn, RowsAgree;
  }

  // ---------------------------------------------------------------- the condition is needed

  lemma {:induction false} GroupMember(rows: seq<Row>, domainOf: Row -> string, domain: string, e: Evidence)
    returns (i: nat)
    requires e in Group(rows, domainOf, domain)
    ensures i < |rows| && domainOf(rows[i]) == domain && EvidenceRow(rows[i]) == e
  {
    if domainOf(rows[0]) == domain && EvidenceRow(rows[0]) == e {
      i := 0;
    } else {
      i := GroupMember(rows[1..], domainOf, domain, e);
      i := i + 1;
    }
  }

  /** The evidence of a domain with a given key. */
  function Tied(rows: seq<Row>, domainOf: Row -> string, domain: string, k: Key): seq<Evidence> {
    Class(Group(rows, domainOf, domain), EvidenceKey, k)
  }

  lemma TiedSplits(a: seq<Row>, b: seq<Row>, domainOf: Row -> string, domain: string, k: Key)
    ensures Tied(a + b, domainOf, domain, k) == Tied(a, domainOf, domain, k) + Tied(b, domainOf, domain, k)
  {
    GroupSplits(a, b, domainOf, domain);
    ClassSplits(Group(a, domainOf, domain), Group(b, domainOf, domain), EvidenceKey, k);
  }

  lemma TiedHead(a: seq<Row>, r: Row, b: seq<Row>, domainOf: Row -> string, domain: string)
    requires domainOf(r) == domain
    ensures var k := EvidenceKey(EvidenceRow(r));
            var t := Tied(a + ([r] + b), domainOf, domain, k);
            var n := |Tied(a, domainOf, domain, k)|;
            n < |t| && t[n] == EvidenceRow(r)
  {
    var k := EvidenceKey(EvidenceRow(r));
    TiedSplits(a, [r] + b, domainOf, domain, k);
    TiedSplits([r], b, domainOf, domain, k);
    GroupOne(r, domainOf, domain);
    assert [EvidenceRow(r)][1..] == [];
    assert Tied([r], domainOf, domain, k) == [EvidenceRow(r)];
  }

  lemma SwapPermutes<T>(a: seq<T>, r: T, m: seq<T>, s: T, b: seq<T>)
    ensures multiset(a + ([s] + (m + [r] + b))) == multiset(a + ([r] + (m + [s] + b)))
  {
  }

  lemma SplitAtTwo<T>(rows: seq<T>, i: nat, j: nat)
    requires i < j < |rows|
    ensures rows == rows[..i] + ([rows[i]] + (rows[i + 1..j] + [rows[j]] + rows[j + 1..]))
  {
  }

  /** Exchanging two rows whose evidence differs in spite of an equal key changes the order in which
      a stable sort sees them. */
  lemma SwapShows(rows: seq<Row>, domainOf: Row -> string, domain: string, i: nat, j: nat) returns (swapped: seq<Row>)
    requires i < j < |rows| && domainOf(rows[i]) == domain && domainOf(rows[j]) == domain
    requires EvidenceRow(rows[i]) != EvidenceRow(rows[j])
    requires EvidenceKey(EvidenceRow(rows[i])) == EvidenceKey(EvidenceRow(rows[j]))
    ensures multiset(swapped) == multiset(rows)
    ensures var k := EvidenceKey(EvidenceRow(rows[i]));
            Tied(swapped, domainOf, domain, k) != Tied(rows, domainOf, domain, k)
  {
    hide EvidenceRow, EvidenceKey, Tied;
    var a, r, m, s, b := rows[..i], rows[i], rows[i + 1..j], rows[j], rows[j + 1..];
    swapped := a + ([s] + (m + [r] + b));
    SplitAtTwo(rows, i, j);
    SwapPermutes(a, r, m, s, b);
    TiedHead(a, r, m + [s] + b, domainOf, domain);
    TiedHead(a, s, m + [r] + b, domainOf, domain);
  }

  /** Wherever two different evidence rows tie, some permutation of the rows shows. */
  lemma TieShows(rows: seq<Row>, domainOf: Row -> string, domain: string)
    returns (swapped: seq<Row>, k: Key)
    requires !NoTies(Group(rows, domainOf, domain), EvidenceKey)
    ensures multiset(swapped) == multiset(rows)
    ensures Tied(swapped, domainOf, domain, k) != Tied(rows, domainOf, domain, k)
    ensures exists r :: r in rows && domainOf(r) == domain
  {
    var group := Group(rows, domainOf, domain);
    var x, y :| x in group && y in group && EvidenceKey(x) == EvidenceKey(y) && x != y;
    k := EvidenceKey(x);
    var i := GroupMember(rows, domainOf, domain, x);
    var j := GroupMember(rows, domainOf, domain, y);
    hide EvidenceRow, EvidenceKey, Tied, Group;
    assert rows[i] in rows;
    swapped := SwapShows(rows, domainOf, domain, if i < j then i else j, if i < j then j else i);
  }

  /** Equal payloads hold equal records. */
  lemma SamePayloadSameRecord(env: Environment, infra: seq<InfraRow>, catalog: seq<Row>, otx: seq<Row>,
                              infra': seq<InfraRow>, catalog': seq<Row>, otx': seq<Row>, d: string)
    requires Lawful(env.functions) && d in CandidateDomains(env, catalog, otx)
    ensures Build(env, infra, catalog, otx) == Build(env, infra', catalog', otx') ==>
              RecordFor(env, infra, catalog, otx, d) == RecordFor(env, infra', catalog', otx', d)
  {
    var c, c' := CandidateDomains(env, catalog, otx), CandidateDomains(env, catalog', otx');
    var rs, rs' := Records(env, infra, catalog, otx, c), Records(env, infra', catalog', otx', c');
    var p, p' := Build(env, infra, catalog, otx), Build(env, infra', catalog', otx');
    RecordsOf(env, infra, catalog, otx, c);
    RecordsOf(env, infra', catalog', otx', c');
    var r := RecordFor(env, infra, catalog, otx, d);
    RecordForKeepsDomain(env, infra, catalog, otx, d);
    SelectMembers(rs, r.eligible);
    SelectMembers(rs', r.eligible);
    assert p.domains == Select(rs, true) && p.excluded == Select(rs, false);
    assert p'.domains == Select(rs', true) && p'.excluded == Select(rs', false);
    hide RecordFor, Select, Records, CandidateDomains, Lawful, Build;
    if p == p' {
      assert r in Select(rs, r.eligible) && Select(rs, r.eligible) == Select(rs', r.eligible);
    }
  }

  lemma EvidenceOf(env: Environment, infra: seq<InfraRow>, catalog: seq<Row>, otx: seq<Row>, d: string, k: Key)
    requires Lawful(env.functions)
    ensures Class(RecordFor(env, infra, catalog, otx, d).evidence, EvidenceKey, k) ==
            Tied(catalog, r => CatalogDomain(env, r), d, k) + Tied(otx, r => OtxDomain(env, r), d, k)
  {
    var ofCatalog, ofOtx := (r: Row) => CatalogDomain(env, r), (r: Row) => OtxDomain(env, r);
    var c, o := Group(catalog, ofCatalog, d), Group(otx, ofOtx, d);
    JudgeSound(env, d, ClassifyHost(d, IndexOf(infra, env.canonicalHost), env.canonicalHost), c, o,
               HitsFor(env, infra, otx, d));
    SortBySorts(c + o, EvidenceKey);
    ClassSplits(c, o, EvidenceKey, k);
    hide Judge, Group, Class, SortBy, HitsFor, ClassifyHost, Lawful;
  }

  lemma CandidateOf(env: Environment, catalog: seq<Row>, otx: seq<Row>, d: string)
    requires IsCandidate(d)
    requires (exists r :: r in catalog && CatalogDomain(env, r) == d) ||
             (exists r :: r in otx && OtxDomain(env, r) == d)
    ensures d in CandidateDomains(env, catalog, otx)
  {
    var ofCatalog, ofOtx := (r: Row) => CatalogDomain(env, r), (r: Row) => OtxDomain(env, r);
    DomainsMembers(catalog, ofCatalog);
    DomainsMembers(otx, ofOtx);
    var all := Domains(catalog, ofCatalog) + Domains(otx, ofOtx);
    assert d in Elements(all);
    SortedDistinctSorts(all);
    assert CandidateDomains(env, catalog, otx) == SortedDistinct(all);
    hide SortedDistinct, Domains, CatalogDomain, OtxDomain, IsCandidate;
    assert d in Elements(SortedDistinct(all));
  }

  lemma Cancel<T>(a: seq<T>, b: seq<T>, c: seq<T>)
    ensures a + c == b + c ==> a == b
    ensures c + a == c + b ==> a == b
  {
    if a + c == b + c {
      assert a == (a + c)[..|a|] && b == (b + c)[..|b|];
    }
    if c + a == c + b {
      assert a == (c + a)[|c|..] && b == (c + b)[|c|..];
    }
  }

  lemma CatalogTieShows(env: Environment, infra: seq<InfraRow>, catalog: seq<Row>, otx: seq<Row>, d: string)
    returns (catalog': seq<Row>)
    requires Lawful(env.functions) && IsCandidate(d)
    requires !NoTies(Group(catalog, r => CatalogDomain(env, r), d), EvidenceKey)
    ensures multiset(catalog') == multiset(catalog)
    ensures Build(env, infra, catalog', otx) != Build(env, infra, catalog, otx)
  {
    hide RecordFor, Class, Tied, CandidateDomains, Lawful, Build, IsCandidate, Group;
    var k;
    catalog', k := TieShows(catalog, r => CatalogDomain(env, r), d);
    CandidateOf(env, catalog, otx, d);
    EvidenceOf(env, infra, catalog, otx, d, k);
    EvidenceOf(env, infra, catalog', otx, d, k);
    Cancel(Tied(catalog, r => CatalogDomain(env, r), d, k), Tied(catalog', r => CatalogDomain(env, r), d, k),
           Tied(otx, r => OtxDomain(env, r), d, k));
    if Build(env, infra, catalog', otx) == Build(env, infra, catalog, otx) {
      SamePayloadSameRecord(env, infra, catalog, otx, infra, catalog', otx, d);
    }
  }

  lemma OtxTieShows(env: Environment, infra: seq<InfraRow>, catalog: seq<Row>, otx: seq<Row>, d: string)
    returns (otx': seq<Row>)
    requires Lawful(env.functions) && IsCandidate(d)
    requires !NoTies(Group(otx, r => OtxDomain(env, r), d), EvidenceKey)
    ensures multiset(otx') == multiset(otx)
    ensures Build(env, infra, catalog, otx') != Build(env, infra, catalog, otx)
  {
    hide RecordFor, Class, Tied, CandidateDomains, Lawful, Build, IsCandidate, Group;
    var k;
    otx', k := TieShows(otx, r => OtxDomain(env, r), d);
    CandidateOf(env, catalog, otx, d);
    EvidenceOf(env, infra, catalog, otx, d, k);
    EvidenceOf(env, infra, catalog, otx', d, k);
    Cancel(Tied(otx, r => OtxDomain(env, r), d, k), Tied(otx', r => OtxDomain(env, r), d, k),
           Tied(catalog, r => CatalogDomain(env, r), d, k));
    if Build(env, infra, catalog, otx') == Build(env, infra, catalog, otx) {
      SamePayloadSameRecord(env, infra, catalog, otx, infra, catalog, otx', d);
    }
  }

  /** With the row at i moved to the end. */
  function MoveLast<T>(xs: seq<T>, i: nat): seq<T>
    requires i < |xs|
  {
    xs[..i] + xs[i + 1..] + [xs[i]]
  }

  lemma MoveLastPermutes<T>(xs: seq<T>, i: nat)
    requires i < |xs|
    ensures multiset(MoveLast(xs, i)) == multiset(xs)
  {
    assert xs == xs[..i] + [xs[i]] + xs[i + 1..];
  }

  lemma LastDecides(infra: seq<InfraRow>, canonicalHost: string -> string, i: nat, host: string)
    requires i < |infra| && canonicalHost(infra[i].host) == canonicalHost(host) != ""
    ensures ClassifyHost(host, IndexOf(MoveLast(infra, i), canonicalHost), canonicalHost) ==
            Classified(canonicalHost(host), infra[i].class_, infra[i].enabled)
  {
    var moved := MoveLast(infra, i);
    assert moved[..|moved| - 1] == infra[..i] + infra[i + 1..] && moved[|moved| - 1] == infra[i];
    hide MoveLast;
  }

  /** If the rows that name a candidate disagree, some order of them shows. */
  lemma DisagreementShows(env: Environment, infra: seq<InfraRow>, catalog: seq<Row>, otx: seq<Row>, d: string)
    returns (infra': seq<InfraRow>)
    requires Lawful(env.functions) && d in CandidateDomains(env, catalog, otx)
    requires !RowsAgree(infra, env.canonicalHost, d)
    ensures multiset(infra') == multiset(infra)
    ensures Build(env, infra', catalog, otx) != Build(env, infra, catalog, otx)
  {
    var canon := env.canonicalHost(d);
    var r, s :| r in infra && s in infra && env.canonicalHost(r.host) == canon && env.canonicalHost(s.host) == canon &&
                !(r.class_ == s.class_ && r.enabled == s.enabled);
    var i :| 0 <= i < |infra| && infra[i] == r;
    var j :| 0 <= j < |infra| && infra[j] == s;
    LastDecides(infra, env.canonicalHost, i, d);
    LastDecides(infra, env.canonicalHost, j, d);
    MoveLastPermutes(infra, i);
    MoveLastPermutes(infra, j);
    var a, b := MoveLast(infra, i), MoveLast(infra, j);
    hide MoveLast, CandidateDomains, Build, IndexOf, ClassifyHost, Lawful, RowsAgree, RecordFor;
    RecordClassified(env, a, catalog, otx, d);
    RecordClassified(env, b, catalog, otx, d);
    RecordClassified(env, infra, catalog, otx, d);
    infra' := if Build(env, a, catalog, otx) == Build(env, infra, catalog, otx) then b else a;
    if Build(env, a, catalog, otx) == Build(env, infra, catalog, otx) &&
       Build(env, b, catalog, otx) == Build(env, infra, catalog, otx) {
      SamePayloadSameRecord(env, infra, catalog, otx, a, catalog, otx, d);
      SamePayloadSameRecord(env, infra, catalog, otx, b, catalog, otx, d);
    }
  }

  lemma RecordClassified(env: Environment, infra: seq<InfraRow>, catalog: seq<Row>, otx: seq<Row>, d: string)
    requires Lawful(env.functions)
    ensures RecordFor(env, infra, catalog, otx, d).classified ==
            ClassifyHost(d, IndexOf(infra, env.canonicalHost), env.canonicalHost)
  {
    JudgeSound(env, d, ClassifyHost(d, IndexOf(infra, env.canonicalHost), env.canonicalHost),
               Group(catalog, r => CatalogDomain(env, r), d), Group(otx, r => OtxDomain(env, r), d),
               HitsFor(env, infra, otx, d));
    hide Judge, Group, HitsFor, ClassifyHost, IndexOf, Lawful;
  }

  /** Every order of the rows gives the same payload. */
  ghost predicate OrderInvisible(env: Environment, infra: seq<InfraRow>, catalog: seq<Row>, otx: seq<Row>)
    requires Lawful(env.functions)
  {
    forall infra', catalog', otx' |
      && multiset(infra') == multiset(infra)
      && multiset(catalog') == multiset(catalog) && multiset(otx') == multiset(otx) ::
      Build(env, infra', catalog', otx') == Build(env, infra, catalog, otx)
  }

  /**
   The payload is independent of the order of the rows of all three queries exactly when no two
   different evidence rows of one candidate domain share the sort key within the catalog rows or
   within the OTX rows, and the infrastructure rows that name a candidate agree on it.  A catalog row
   and an OTX row may share their key.
   */
  lemma OrderInvisibleIff(env: Environment, infra: seq<InfraRow>, catalog: seq<Row>, otx: seq<Row>)
    requires Lawful(env.functions)
    ensures OrderInvisible(env, infra, catalog, otx) <==>
            && NoTiesIn(catalog, r => CatalogDomain(env, r)) && NoTiesIn(otx, r => OtxDomain(env, r))
            && forall d | d in CandidateDomains(env, catalog, otx) :: RowsAgree(infra, env.canonicalHost, d)
  {
    if !NoTiesIn(catalog, r => CatalogDomain(env, r)) {
      var d :| IsCandidate(d) && !NoTies(Group(catalog, r => CatalogDomain(env, r), d), EvidenceKey);
      hide Build, Group, NoTies, CandidateDomains, RowsAgree, IsCandidate;
      var catalog' := CatalogTieShows(env, infra, catalog, otx, d);
    } else if !NoTiesIn(otx, r => OtxDomain(env, r)) {
      var d :| IsCandidate(d) && !NoTies(Group(otx, r => OtxDomain(env, r), d), EvidenceKey);
      hide Build, Group, NoTies, CandidateDomains, RowsAgree, IsCandidate;
      var otx' := OtxTieShows(env, infra, catalog, otx, d);
    } else if d :| d in CandidateDomains(env, catalog, otx) && !RowsAgree(infra, env.canonicalHost, d) {
      hide Build, NoTiesIn, CandidateDomains, RowsAgree;
      var infra' := DisagreementShows(env, infra, catalog, otx, d);
    } else {
      hide Build, NoTiesIn, CandidateDomains, RowsAgree;
      forall infra', catalog', otx' |
        && multiset(infra') == multiset(infra)
        && multiset(catalog') == multiset(catalog) && multiset(otx') == multiset(otx)
        ensures Build(env, infra', catalog', otx') == Build(env, infra, catalog, otx)
      {
        OrderIndependence(env, infra, catalog, otx, infra', catalog', otx');
      }
    }
  }
}
