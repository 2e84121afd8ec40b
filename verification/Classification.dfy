/** Infrastructure classification and export eligibility (backend/blocklist/classify.py). */
module Classification {

  datatype InfraClass = LegitimateDomain | SharedInfrastructure | TrustedService | Unknown

  /** One operator-curated row; a class that is not one of the four reads as Unknown. */
  datatype InfraRow = InfraRow(host: string, class_: InfraClass, enabled: bool)

  datatype Classified = Classified(host: string, class_: InfraClass, enabled: bool)

  type Index = map<string, InfraRow>

  /** The last row of a canonical host wins. */
  function IndexOf(rows: seq<InfraRow>, canonicalHost: string -> string): Index {
    if rows == [] then map[]
    else
      var before, last := IndexOf(rows[..|rows| - 1], canonicalHost), rows[|rows| - 1];
      var host := canonicalHost(last.host);
      if host == "" then before else before[host := last]
  }

  /** Hosts that some enabled row excludes. */
  function ExcludedHosts(rows: seq<InfraRow>, canonicalHost: string -> string): set<string> {
    if rows == [] then {}
    else
      var before, last := ExcludedHosts(rows[..|rows| - 1], canonicalHost), rows[|rows| - 1];
      var host := canonicalHost(last.host);
      if host == "" || !last.enabled || last.class_.Unknown? then before else before + {host}
  }

  /** Exact canonical host only: no row, or a blank host, is an ordinary unknown host. */
  function ClassifyHost(host: string, index: Index, canonicalHost: string -> string): Classified {
    var canon := canonicalHost(host);
    if canon == "" || canon !in index then Classified(canon, Unknown, false)
    else Classified(canon, index[canon].class_, index[canon].enabled)
  }

  predicate ExcludedFromExport(c: Classified) {
    c.enabled && !c.class_.Unknown?
  }

  datatype IocKind = DomainIoc | UrlIoc

  /** Whether a candidate is eligible as a domain, and as a URL. */
  function ExportEligibility(baseEligible: bool, classified: Classified, kind: IocKind): (bool, bool) {
    if !baseEligible then (false, false)
    else if ExcludedFromExport(classified) && kind == UrlIoc then (false, true)
    else if ExcludedFromExport(classified) then (false, false)
    else (true, kind == UrlIoc)
  }

  // ---------------------------------------------------------------- in terms of the rows

  predicate RowExcludes(row: InfraRow) {
    row.enabled && !row.class_.Unknown?
  }

  /** Row i is the last one whose canonical host is the given one. */
  predicate LastNaming(rows: seq<InfraRow>, canonicalHost: string -> string, canon: string, i: int) {
    && 0 <= i < |rows| && canonicalHost(rows[i].host) == canon
    && forall j | i < j < |rows| :: canonicalHost(rows[j].host) != canon
  }

  /** The last row of the host excludes it. */
  ghost predicate LastRowExcludes(rows: seq<InfraRow>, canonicalHost: string -> string, host: string) {
    canonicalHost(host) != "" &&
    exists i :: LastNaming(rows, canonicalHost, canonicalHost(host), i) && RowExcludes(rows[i])
  }

  /** Some row of the host excludes it. */
  ghost predicate SomeRowExcludes(rows: seq<InfraRow>, canonicalHost: string -> string, host: string) {
    canonicalHost(host) != "" &&
    exists i :: 0 <= i < |rows| && canonicalHost(rows[i].host) == canonicalHost(host) && RowExcludes(rows[i])
  }

  /** The index holds the hosts that some row names, each with the last such row. */
  lemma {:induction false} LastRowWins(rows: seq<InfraRow>, canonicalHost: string -> string, canon: string)
    ensures canon in IndexOf(rows, canonicalHost) <==>
            canon != "" && exists i :: 0 <= i < |rows| && canonicalHost(rows[i].host) == canon
    ensures canon in IndexOf(rows, canonicalHost) ==>
            exists i :: LastNaming(rows, canonicalHost, canon, i) && IndexOf(rows, canonicalHost)[canon] == rows[i]
  {
    if rows != [] {
      var n := |rows| - 1;
      var before := rows[..n];
      LastRowWins(before, canonicalHost, canon);
      assert forall i | 0 <= i < n :: before[i] == rows[i];
      if canon != "" && canonicalHost(rows[n].host) == canon {
        assert LastNaming(rows, canonicalHost, canon, n);
      } else if canon in IndexOf(before, canonicalHost) {
        var i :| LastNaming(before, canonicalHost, canon, i) && IndexOf(before, canonicalHost)[canon] == before[i];
        assert LastNaming(rows, canonicalHost, canon, i);
      }
    }
  }

  /** The hosts for which the corroboration lookup is told to ignore host-level hits: any row counts. */
  lemma {:induction false} AnyRowExcludes(rows: seq<InfraRow>, canonicalHost: string -> string, canon: string)
    ensures canon in ExcludedHosts(rows, canonicalHost) <==>
            canon != "" && exists i :: 0 <= i < |rows| && canonicalHost(rows[i].host) == canon && RowExcludes(rows[i])
  {
    if rows != [] {
      var n := |rows| - 1;
      AnyRowExcludes(rows[..n], canonicalHost, canon);
      if i :| 0 <= i < |rows| && canonicalHost(rows[i].host) == canon && RowExcludes(rows[i]) {
        assert i < n ==> rows[..n][i] == rows[i];
      }
      if i :| 0 <= i < n && canonicalHost(rows[..n][i].host) == canon && RowExcludes(rows[..n][i]) {
        assert rows[i] == rows[..n][i];
      }
    }
  }

  lemma LastIsOne(rows: seq<InfraRow>, canonicalHost: string -> string, canon: string, i: int, j: int)
    requires LastNaming(rows, canonicalHost, canon, i) && LastNaming(rows, canonicalHost, canon, j)
    ensures i == j
  {
  }

  /** The export goes by the last row of a host. */
  lemma ExcludedIffLastRow(rows: seq<InfraRow>, canonicalHost: string -> string, host: string)
    ensures ExcludedFromExport(ClassifyHost(host, IndexOf(rows, canonicalHost), canonicalHost)) <==>
            LastRowExcludes(rows, canonicalHost, host)
  {
    var canon := canonicalHost(host);
    LastRowWins(rows, canonicalHost, canon);
    hide IndexOf;
    if i :| LastNaming(rows, canonicalHost, canon, i) && RowExcludes(rows[i]) {
      if canon != "" {
        var j :| LastNaming(rows, canonicalHost, canon, j) && IndexOf(rows, canonicalHost)[canon] == rows[j];
        LastIsOne(rows, canonicalHost, canon, i, j);
      }
    }
  }

  /** No row that excludes its host is overruled by the last row of the same canonical host. */
  ghost predicate NoneOverruled(rows: seq<InfraRow>, canonicalHost: string -> string) {
    forall i, j | 0 <= i < j < |rows| && canonicalHost(rows[i].host) != "" && RowExcludes(rows[i]) &&
                  LastNaming(rows, canonicalHost, canonicalHost(rows[i].host), j) :: RowExcludes(rows[j])
  }

  lemma {:induction false} SomeIsLast(rows: seq<InfraRow>, canonicalHost: string -> string, canon: string, i: int)
    returns (j: int)
    requires 0 <= i < |rows| && canonicalHost(rows[i].host) == canon
    ensures i <= j && LastNaming(rows, canonicalHost, canon, j)
    decreases |rows| - i
  {
    j := i;
    if k :| i < k < |rows| && canonicalHost(rows[k].host) == canon {
      j := SomeIsLast(rows, canonicalHost, canon, k);
    }
  }

  /**
   The export and the corroboration lookup take the same hosts for excluded if and only if no
   excluding row is overruled by a later row of the same canonical host.
   */
  lemma ExclusionsAgreeIff(rows: seq<InfraRow>, canonicalHost: string -> string)
    ensures NoneOverruled(rows, canonicalHost) <==>
            forall host :: LastRowExcludes(rows, canonicalHost, host) <==> SomeRowExcludes(rows, canonicalHost, host)
  {
    forall host | LastRowExcludes(rows, canonicalHost, host) ensures SomeRowExcludes(rows, canonicalHost, host) {
      var i :| LastNaming(rows, canonicalHost, canonicalHost(host), i) && RowExcludes(rows[i]);
      assert canonicalHost(rows[i].host) == canonicalHost(host);
    }
    if NoneOverruled(rows, canonicalHost) {
      forall host | SomeRowExcludes(rows, canonicalHost, host) ensures LastRowExcludes(rows, canonicalHost, host) {
        var canon := canonicalHost(host);
        var i :| 0 <= i < |rows| && canonicalHost(rows[i].host) == canon && RowExcludes(rows[i]);
        var j := SomeIsLast(rows, canonicalHost, canon, i);
        assert RowExcludes(rows[j]);
      }
    } else {
      var i, j :| 0 <= i < j < |rows| && canonicalHost(rows[i].host) != "" && RowExcludes(rows[i]) &&
                  LastNaming(rows, canonicalHost, canonicalHost(rows[i].host), j) && !RowExcludes(rows[j]);
      var host := rows[i].host;
      assert SomeRowExcludes(rows, canonicalHost, host);
      if LastRowExcludes(rows, canonicalHost, host) {
        var k :| LastNaming(rows, canonicalHost, canonicalHost(host), k) && RowExcludes(rows[k]);
        LastIsOne(rows, canonicalHost, canonicalHost(host), j, k);
      }
    }
  }

  /** Rows with different canonical hosts never overrule one another. */
  lemma DistinctHostsAgree(rows: seq<InfraRow>, canonicalHost: string -> string)
    requires forall i, j | 0 <= i < j < |rows| && canonicalHost(rows[i].host) != "" ::
               canonicalHost(rows[i].host) != canonicalHost(rows[j].host)
    ensures NoneOverruled(rows, canonicalHost)
  {
  }

  /** Two spellings of one host, the second one disabled: the lookup ignores the host, the export does not. */
  lemma OverruledExclusion(canonicalHost: string -> string)
    requires canonicalHost("a.com") == "a.com" && canonicalHost("www.a.com") == "a.com"
    ensures var rows := [InfraRow("a.com", TrustedService, true), InfraRow("www.a.com", TrustedService, false)];
            && "a.com" in ExcludedHosts(rows, canonicalHost)
            && !ExcludedFromExport(ClassifyHost("a.com", IndexOf(rows, canonicalHost), canonicalHost))
  {
    var rows := [InfraRow("a.com", TrustedService, true), InfraRow("www.a.com", TrustedService, false)];
    AnyRowExcludes(rows, canonicalHost, "a.com");
    LastRowWins(rows, canonicalHost, "a.com");
    assert RowExcludes(rows[0]) && LastNaming(rows, canonicalHost, "a.com", 1);
    hide IndexOf, ExcludedHosts;
  }

  // ---------------------------------------------------------------- disabled rows

  /**
   A host reads as unknown exactly when it is blank, no row names it, or its last row says so.  Being
   disabled is not among these, but a disabled row excludes nothing.
   */
  lemma UnknownIff(rows: seq<InfraRow>, canonicalHost: string -> string, host: string)
    ensures var c := ClassifyHost(host, IndexOf(rows, canonicalHost), canonicalHost);
            && (c.class_ == Unknown <==>
                  canonicalHost(host) == "" ||
                  forall i | LastNaming(rows, canonicalHost, canonicalHost(host), i) :: rows[i].class_ == Unknown)
            && (!c.enabled ==> !ExcludedFromExport(c))
  {
    var canon := canonicalHost(host);
    LastRowWins(rows, canonicalHost, canon);
    hide IndexOf;
    forall i, j | LastNaming(rows, canonicalHost, canon, i) && LastNaming(rows, canonicalHost, canon, j)
      ensures i == j
    {
      LastIsOne(rows, canonicalHost, canon, i, j);
    }
    assert canon !in IndexOf(rows, canonicalHost) && canon != "" ==>
           forall i :: !LastNaming(rows, canonicalHost, canon, i);
  }

  /** For instance a disabled row of a trusted service: its class is kept, and excludes nothing. */
  lemma DisabledKeepsClass(canonicalHost: string -> string)
    requires canonicalHost("a.com") == "a.com"
    ensures var rows := [InfraRow("a.com", TrustedService, false)];
            var c := ClassifyHost("a.com", IndexOf(rows, canonicalHost), canonicalHost);
            c == Classified("a.com", TrustedService, false) && !ExcludedFromExport(c)
  {
    var rows := [InfraRow("a.com", TrustedService, false)];
    LastRowWins(rows, canonicalHost, "a.com");
    assert canonicalHost(rows[0].host) == "a.com";
    hide IndexOf;
  }

  /** A classification shows the canonical host, and the class and state of the last row that names it. */
  lemma ClassifiedAs(rows: seq<InfraRow>, canonicalHost: string -> string, host: string)
    ensures var c := ClassifyHost(host, IndexOf(rows, canonicalHost), canonicalHost);
            && c.host == canonicalHost(host)
            && forall i | canonicalHost(host) != "" && LastNaming(rows, canonicalHost, canonicalHost(host), i) ::
                 c.class_ == rows[i].class_ && c.enabled == rows[i].enabled
  {
    LastRowWins(rows, canonicalHost, canonicalHost(host));
    hide IndexOf;
  }
}
