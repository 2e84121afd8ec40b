/** The three text forms of the payload (backend/blocklist/serialize.py). */
module BlocklistExport {
  import opened Options
  import opened Ordering
  import opened Freshness
  import opened Confidence
  import opened Classification
  import opened Blocklist
  import opened BlocklistSoundness
  import BlocklistOrder
  import Durations

  datatype Mode = DomainMode | UrlMode | AllMode

  function ModeName(mode: Mode): string {
    match mode
    case DomainMode => "domains"
    case UrlMode => "urls"
    case AllMode => "all"
  }

  /** normalize_export_mode: a missing or empty mode means domains. */
  function NormalizeMode(mode: Option<string>, clean: string -> string): Result<Mode, string> {
    var name := clean(if mode == None || mode == Some("") then "domains" else mode.value);
    if name == "domains" then Ok(DomainMode)
    else if name == "urls" then Ok(UrlMode)
    else if name == "all" then Ok(AllMode)
    else Err("mode must be one of: all, domains, urls")
  }

  /** _admin_export_mode. */
  function AdminMode(mode: Option<string>, clean: string -> string, allowAll: bool): Result<Mode, string> {
    match NormalizeMode(mode, clean)
    case Ok(AllMode) => if allowAll then Ok(AllMode) else Err("mode must be domains or urls for TXT export")
    case other => other
  }

  predicate MatchesMode(r: Record, mode: Mode) {
    r.eligible &&
    match mode
    case DomainMode => r.eligibleDomain
    case UrlMode => r.eligibleUrl
    case AllMode => r.eligibleDomain || r.eligibleUrl
  }

  function EligibleCount(records: seq<Record>, mode: Mode): nat {
    CountIf(records, (r: Record) => MatchesMode(r, mode))
  }

  // ---------------------------------------------------------------- the lines of a text export

  /** What one record contributes: nothing, its domain, or its exact URL unless that is blank. */
  function LineOf(r: Record, mode: Mode, strip: string -> string): seq<string> {
    if !MatchesMode(r, mode) then []
    else if mode != UrlMode then [r.domain]
    else if strip(r.exactIoc) != "" then [strip(r.exactIoc)]
    else []
  }

  function LinesOf(records: seq<Record>, mode: Mode, strip: string -> string): seq<string> {
    if records == [] then [] else LineOf(records[0], mode, strip) + LinesOf(records[1..], mode, strip)
  }

  function LineKey(line: string): Key {
    [line]
  }

  function TxtLines(records: seq<Record>, mode: Mode, strip: string -> string): seq<string> {
    SortBy(LinesOf(records, mode, strip), LineKey)
  }

  function HeaderLines(p: Payload, mode: Mode): seq<string> {
    ["# BRIEFR malicious-domain candidates",
     "# generated_at: " + p.generatedAt,
     "# mode: " + ModeName(mode),
     "# eligible: " + Durations.NatText(EligibleCount(p.domains, mode)),
     "# excluded: " + Durations.NatText(p.excludedCount)]
  }

  /** Every line ended by a newline. */
  function Unlines(lines: seq<string>): string {
    if lines == [] then "" else lines[0] + "\n" + Unlines(lines[1..])
  }

  /** The lines with a newline between them. */
  function Join(lines: seq<string>): string {
    if lines == [] then "" else if |lines| == 1 then lines[0] else lines[0] + "\n" + Join(lines[1..])
  }

  function Txt(p: Payload, mode: Mode, strip: string -> string): string {
    Unlines(HeaderLines(p, mode) + TxtLines(p.domains, mode, strip))
  }

  lemma {:induction false} JoinUnlines(lines: seq<string>)
    requires lines != []
    ensures Unlines(lines) == Join(lines) + "\n"
  {
    if |lines| == 1 {
      assert lines[1..] == [];
      assert lines[0] + "\n" + "" == lines[0] + "\n";
    } else {
      JoinUnlines(lines[1..]);
      assert lines[0] + "\n" + (Join(lines[1..]) + "\n") == lines[0] + "\n" + Join(lines[1..]) + "\n";
    }
  }

  lemma {:induction false} UnlinesSplits(a: seq<string>, b: seq<string>)
    ensures Unlines(a + b) == Unlines(a) + Unlines(b)
  {
    if a == [] {
      assert a + b == b && "" + Unlines(b) == Unlines(b);
    } else {
      UnlinesSplits(a[1..], b);
      assert (a + b)[1..] == a[1..] + b;
      assert a[0] + "\n" + (Unlines(a[1..]) + Unlines(b)) == a[0] + "\n" + Unlines(a[1..]) + Unlines(b);
    }
  }

  lemma {:induction false} LinesSplit(records: seq<Record>, r: Record, mode: Mode, strip: string -> string)
    ensures LinesOf(records + [r], mode, strip) == LinesOf(records, mode, strip) + LineOf(r, mode, strip)
  {
    hide LineOf;
    if records == [] {
      assert records + [r] == [r] && [r][1..] == [];
      assert LineOf(r, mode, strip) + [] == LineOf(r, mode, strip) == [] + LineOf(r, mode, strip);
    } else {
      LinesSplit(records[1..], r, mode, strip);
      assert (records + [r])[1..] == records[1..] + [r] && (records + [r])[0] == records[0];
      ConcatAssoc(LineOf(records[0], mode, strip), LinesOf(records[1..], mode, strip), LineOf(r, mode, strip));
    }
  }

  lemma {:induction false} LineMembers(records: seq<Record>, mode: Mode, strip: string -> string)
    ensures forall l :: l in LinesOf(records, mode, strip) <==> exists r :: r in records && l in LineOf(r, mode, strip)
  {
    hide LineOf;
    if records != [] {
      LineMembers(records[1..], mode, strip);
      assert forall r :: r in records <==> r == records[0] || r in records[1..];
    }
  }

  lemma TxtMembers(records: seq<Record>, mode: Mode, strip: string -> string)
    ensures forall l :: l in TxtLines(records, mode, strip) <==> exists r :: r in records && l in LineOf(r, mode, strip)
    ensures Sorted(TxtLines(records, mode, strip), LineKey)
    ensures |TxtLines(records, mode, strip)| == |LinesOf(records, mode, strip)|
  {
    hide LineOf, LinesOf, Sorted;
    var lines := LinesOf(records, mode, strip);
    LineMembers(records, mode, strip);
    SortBySorts(lines, LineKey);
    assert forall l :: l in lines <==> l in multiset(lines);
    assert forall l :: l in TxtLines(records, mode, strip) <==> l in multiset(TxtLines(records, mode, strip));
    assert |multiset(lines)| == |lines|;
    assert |multiset(TxtLines(records, mode, strip))| == |TxtLines(records, mode, strip)|;
  }

  /**
   What a text export lists, sorted: the domain of every record that the mode selects, or in the mode
   `urls` the exact URL of every one of them whose URL is not blank.
   */
  lemma ListsExactly(records: seq<Record>, mode: Mode, strip: string -> string)
    ensures var lines := TxtLines(records, mode, strip);
            && (forall l :: l in lines <==> exists r ::
                  && r in records && MatchesMode(r, mode)
                  && (if mode == UrlMode then l == strip(r.exactIoc) && l != "" else l == r.domain))
            && forall i, j | 0 <= i < j < |lines| :: StrLe(lines[i], lines[j])
  {
    TxtMembers(records, mode, strip);
    var lines := TxtLines(records, mode, strip);
    hide TxtLines, MatchesMode, StrLe;
    forall i, j | 0 <= i < j < |lines| ensures StrLe(lines[i], lines[j]) {
      assert KeyLe([lines[i]], [lines[j]]);
      StrOrder();
      SingleKeys(lines[i], lines[j]);
    }
  }

  lemma SingleKeys(a: string, b: string)
    ensures KeyLe([a], [b]) <==> a == b || StrLe(a, b)
  {
    hide StrLe;
    assert KeyLe([a], [b]) == LexLe([a], [b], StrLe);
    if a == b {
      assert LexLe([a][1..], [b][1..], StrLe);
    }
  }

  lemma {:induction false} LinesNotBlank(records: seq<Record>, mode: Mode, strip: string -> string)
    requires forall r | r in records :: r.domain != ""
    ensures forall l | l in LinesOf(records, mode, strip) :: l != ""
  {
    if records != [] {
      LinesNotBlank(records[1..], mode, strip);
      assert records[0] in records;
    }
  }

  /** The lines that the loop over the records collects, before they are sorted. */
  method CollectLines(records: seq<Record>, mode: Mode, strip: string -> string) returns (lines: seq<string>)
    ensures lines == LinesOf(records, mode, strip)
  {
    hide MatchesMode;
    lines := [];
    for i := 0 to |records|
      invariant lines == LinesOf(records[..i], mode, strip)
    {
      var record := records[i];
      assert records[..i + 1] == records[..i] + [record];
      LinesSplit(records[..i], record, mode, strip);
      if !MatchesMode(record, mode) {
        continue;
      }
      if mode == UrlMode {
        var value := strip(record.exactIoc);
        if value != "" {
          lines := lines + [value];
        }
      } else {
        lines := lines + [record.domain];
      }
    }
    assert records[..|records|] == records;
  }

  lemma JoinNotBlank(lines: seq<string>)
    requires lines != [] && lines[0] != ""
    ensures Join(lines) != ""
  {
  }

  /** to_txt. */
  method ToTxt(p: Payload, mode: Mode, strip: string -> string) returns (text: string)
    requires forall r | r in p.domains :: r.domain != ""
    ensures text == Txt(p, mode, strip)
  {
    hide MatchesMode, LinesOf, HeaderLines, Unlines, Join, SortBy, Sorted, LineOf;
    var lines := CollectLines(p.domains, mode, strip);
    LinesNotBlank(p.domains, mode, strip);
    LineMembers(p.domains, mode, strip);
    TxtMembers(p.domains, mode, strip);
    lines := SortBy(lines, LineKey);
    var header, body := Unlines(HeaderLines(p, mode)), Join(lines);
    UnlinesSplits(HeaderLines(p, mode), lines);
    if lines == [] {
      NothingToJoin();
    } else {
      assert lines[0] in TxtLines(p.domains, mode, strip);
      assert lines[0] in LinesOf(p.domains, mode, strip);
      JoinNotBlank(lines);
      JoinUnlines(lines);
      assert header + (body + "\n") == header + body + "\n";
    }
    text := if body != "" then header + body + "\n" else header;
  }

  lemma NothingToJoin()
    ensures Join([]) == "" && Unlines([]) == ""
  {
  }

  // ---------------------------------------------------------------- reading an export back

  function SplitLines(s: string): (lines: seq<string>)
    ensures lines != []
  {
    if s == "" then [""]
    else if s[0] == '\n' then [""] + SplitLines(s[1..])
    else
      var rest := SplitLines(s[1..]);
      [[s[0]] + rest[0]] + rest[1..]
  }

  predicate IsEntry(line: string) {
    line != "" && line[0] != '#'
  }

  function Filter(lines: seq<string>): seq<string> {
    if lines == [] then [] else (if IsEntry(lines[0]) then [lines[0]] else []) + Filter(lines[1..])
  }

  /** What a consumer reads: the lines that are neither blank nor comments. */
  function Entries(text: string): seq<string> {
    Filter(SplitLines(text))
  }

  lemma {:induction false} SplitFirst(line: string, rest: string)
    requires '\n' !in line
    ensures SplitLines(line + "\n" + rest) == [line] + SplitLines(rest)
  {
    if line == "" {
      assert (line + "\n" + rest)[0] == '\n' && (line + "\n" + rest)[1..] == rest;
    } else {
      SplitFirst(line[1..], rest);
      assert (line + "\n" + rest)[1..] == line[1..] + "\n" + rest;
      assert [line[0]] + line[1..] == line;
    }
  }

  lemma {:induction false} SplitUnlines(lines: seq<string>)
    requires forall l | l in lines :: '\n' !in l
    ensures SplitLines(Unlines(lines)) == lines + [""]
  {
    if lines != [] {
      assert lines[0] in lines;
      SplitFirst(lines[0], Unlines(lines[1..]));
      SplitUnlines(lines[1..]);
      assert lines == [lines[0]] + lines[1..];
    }
  }

  lemma {:induction false} FilterSplits(a: seq<string>, b: seq<string>)
    ensures Filter(a + b) == Filter(a) + Filter(b)
  {
    hide IsEntry;
    if a == [] {
      assert a + b == b;
    } else {
      FilterSplits(a[1..], b);
      assert (a + b)[1..] == a[1..] + b && (a + b)[0] == a[0];
      ConcatAssoc(if IsEntry(a[0]) then [a[0]] else [], Filter(a[1..]), Filter(b));
    }
  }

  lemma {:induction false} FilterKeeps(lines: seq<string>)
    ensures (forall l | l in lines :: IsEntry(l)) ==> Filter(lines) == lines
    ensures (forall l | l in lines :: !IsEntry(l)) ==> Filter(lines) == []
    ensures forall l | l in Filter(lines) :: IsEntry(l) && l in lines
  {
    hide IsEntry;
    if lines != [] {
      FilterKeeps(lines[1..]);
      assert lines == [lines[0]] + lines[1..];
      assert lines[0] in lines;
    }
  }

  lemma {:induction false} SplitHasNoNewline(s: string)
    ensures forall l | l in SplitLines(s) :: '\n' !in l
  {
    if s != "" {
      SplitHasNoNewline(s[1..]);
      var rest := SplitLines(s[1..]);
      assert rest[0] in rest;
      assert forall l | l in rest[1..] :: l in rest;
    }
  }

  lemma NatTextIsOneLine(n: nat)
    ensures '\n' !in Durations.NatText(n)
  {
    assert Durations.Digits(Durations.NatText(n));
  }

  predicate IsComment(line: string) {
    line != "" && line[0] == '#' && '\n' !in line
  }

  lemma CommentIsNoEntry(line: string)
    requires IsComment(line)
    ensures '\n' !in line && !IsEntry(line)
  {
  }

  lemma CommentWith(prefix: string, rest: string)
    requires IsComment(prefix) && '\n' !in rest
    ensures IsComment(prefix + rest)
  {
  }

  lemma Labels()
    ensures IsComment("# BRIEFR malicious-domain candidates") && IsComment("# generated_at: ")
    ensures IsComment("# mode: ") && IsComment("# eligible: ") && IsComment("# excluded: ")
  {
  }

  lemma HeaderIsComment(p: Payload, mode: Mode)
    requires '\n' !in p.generatedAt
    ensures forall l | l in HeaderLines(p, mode) :: '\n' !in l && !IsEntry(l)
  {
    hide EligibleCount, Durations.NatText, IsComment;
    var eligible := EligibleCount(p.domains, mode);
    NatTextIsOneLine(eligible);
    NatTextIsOneLine(p.excludedCount);
    Labels();
    CommentWith("# generated_at: ", p.generatedAt);
    CommentWith("# mode: ", ModeName(mode));
    CommentWith("# eligible: ", Durations.NatText(eligible));
    CommentWith("# excluded: ", Durations.NatText(p.excludedCount));
    forall l | l in HeaderLines(p, mode) ensures '\n' !in l && !IsEntry(l) {
      assert IsComment(l);
      CommentIsNoEntry(l);
    }
  }

  lemma FilterBlank()
    ensures Filter([""]) == []
  {
    assert [""][1..] == [];
  }

  lemma ReadsBack(header: seq<string>, lines: seq<string>)
    requires forall l | l in header :: '\n' !in l && !IsEntry(l)
    requires forall l | l in lines :: '\n' !in l && IsEntry(l)
    ensures Entries(Unlines(header + lines)) == lines
  {
    hide IsEntry, SplitLines, Unlines, Filter;
    SplitUnlines(header + lines);
    FilterSplits(header + lines, [""]);
    FilterSplits(header, lines);
    FilterKeeps(header);
    FilterKeeps(lines);
    FilterBlank();
  }

  lemma EntriesAre(text: string)
    ensures forall l | l in Entries(text) :: IsEntry(l) && '\n' !in l
  {
    hide IsEntry, SplitLines, Filter;
    FilterKeeps(SplitLines(text));
    SplitHasNoNewline(text);
  }

  /** Round trip: a consumer reads back exactly the exported lines, if and only if none of them is
      blank, starts a comment, or spans more than one line. */
  lemma TxtReadsBackIff(p: Payload, mode: Mode, strip: string -> string)
    requires '\n' !in p.generatedAt
    ensures Entries(Txt(p, mode, strip)) == TxtLines(p.domains, mode, strip) <==>
            forall l | l in TxtLines(p.domains, mode, strip) :: IsEntry(l) && '\n' !in l
  {
    hide IsEntry, HeaderLines, TxtLines, Entries, Unlines;
    var header, lines := HeaderLines(p, mode), TxtLines(p.domains, mode, strip);
    HeaderIsComment(p, mode);
    EntriesAre(Txt(p, mode, strip));
    if forall l | l in lines :: IsEntry(l) && '\n' !in l {
      ReadsBack(header, lines);
    }
  }

  // ---------------------------------------------------------------- what the exports select

  lemma {:induction false} CountsAgree(records: seq<Record>, p: Record -> bool, q: Record -> bool)
    requires forall r | r in records :: p(r) == q(r)
    ensures CountIf(records, p) == CountIf(records, q)
  {
    if records != [] {
      assert records[0] in records;
      CountsAgree(records[1..], p, q);
    }
  }

  lemma {:induction false} CountUnion(records: seq<Record>, p: Record -> bool, q: Record -> bool,
                                      either: Record -> bool, both: Record -> bool)
    requires forall r | r in records :: (either(r) <==> p(r) || q(r)) && (both(r) <==> p(r) && q(r))
    ensures CountIf(records, either) + CountIf(records, both) == CountIf(records, p) + CountIf(records, q)
  {
    if records != [] {
      assert records[0] in records;
      CountUnion(records[1..], p, q, either, both);
    }
  }

  lemma {:induction false} CountAll(records: seq<Record>, p: Record -> bool)
    requires forall r | r in records :: p(r)
    ensures CountIf(records, p) == |records|
  {
    if records != [] {
      assert records[0] in records;
      CountAll(records[1..], p);
    }
  }

  /** The eligible records of a build: what each mode selects, in terms of the classification. */
  lemma BuiltRecord(env: Environment, infra: seq<InfraRow>, catalogRows: seq<Row>, otxRows: seq<Row>, r: Record)
    requires Lawful(env.functions)
    requires r in Build(env, infra, catalogRows, otxRows).domains
    ensures MatchesMode(r, AllMode)
    ensures MatchesMode(r, DomainMode) <==> r.eligibleDomain
    ensures MatchesMode(r, UrlMode) <==> r.eligibleUrl
    ensures MatchesMode(r, DomainMode) <==> !LastRowExcludes(infra, env.canonicalHost, r.domain)
    ensures MatchesMode(r, UrlMode) <==> r.kind == UrlIoc
    ensures IsCandidate(r.domain) && r.domain != ""
  {
    ExportIsSound(env, infra, catalogRows, otxRows, r);
    BuiltDomain(env, infra, catalogRows, otxRows, r);
    hide Build, LastRowExcludes;
  }

  lemma BuiltDomain(env: Environment, infra: seq<InfraRow>, catalogRows: seq<Row>, otxRows: seq<Row>, r: Record)
    requires Lawful(env.functions)
    requires r in Build(env, infra, catalogRows, otxRows).domains
    ensures r.domain in CandidateDomains(env, catalogRows, otxRows) && IsCandidate(r.domain)
  {
    var candidates := CandidateDomains(env, catalogRows, otxRows);
    var records := Records(env, infra, catalogRows, otxRows, candidates);
    RecordsOf(env, infra, catalogRows, otxRows, candidates);
    SelectMembers(records, true);
    BlocklistOrder.CandidatesPermute(env, infra, catalogRows, otxRows, infra, catalogRows, otxRows);
    hide Records, CandidateDomains, Select, Lawful, IsCandidate;
  }

  /**
   The three counts of the metadata are the counts of the three modes, and mode `all` selects
   every eligible record: the union of the other two.
   */
  lemma ModeCounts(env: Environment, infra: seq<InfraRow>, catalogRows: seq<Row>, otxRows: seq<Row>)
    requires Lawful(env.functions)
    ensures var p := Build(env, infra, catalogRows, otxRows);
            && (forall r | r in p.domains ::
                  MatchesMode(r, AllMode) <==> MatchesMode(r, DomainMode) || MatchesMode(r, UrlMode))
            && EligibleCount(p.domains, AllMode) == p.eligibleCount == |p.domains|
            && EligibleCount(p.domains, DomainMode) == p.eligibleDomainCount
            && EligibleCount(p.domains, UrlMode) == p.eligibleUrlCount
            && p.eligibleDomainCount + p.eligibleUrlCount ==
               p.eligibleCount + CountIf(p.domains, (r: Record) => r.eligibleDomain && r.eligibleUrl)
            && p.candidateCount == p.eligibleCount + p.excludedCount
  {
    var p := Build(env, infra, catalogRows, otxRows);
    Counted(env, infra, catalogRows, otxRows);
    hide Build, Lawful;
    forall r | r in p.domains
      ensures MatchesMode(r, AllMode)
      ensures (MatchesMode(r, DomainMode) <==> r.eligibleDomain) && (MatchesMode(r, UrlMode) <==> r.eligibleUrl)
    {
      BuiltRecord(env, infra, catalogRows, otxRows, r);
    }
    CountAll(p.domains, (r: Record) => MatchesMode(r, AllMode));
    CountsAgree(p.domains, (r: Record) => MatchesMode(r, DomainMode), (r: Record) => r.eligibleDomain);
    CountsAgree(p.domains, (r: Record) => MatchesMode(r, UrlMode), (r: Record) => r.eligibleUrl);
    CountUnion(p.domains, (r: Record) => r.eligibleDomain, (r: Record) => r.eligibleUrl,
               (r: Record) => MatchesMode(r, AllMode), (r: Record) => r.eligibleDomain && r.eligibleUrl);
  }

  lemma Counted(env: Environment, infra: seq<InfraRow>, catalogRows: seq<Row>, otxRows: seq<Row>)
    requires Lawful(env.functions)
    ensures var p := Build(env, infra, catalogRows, otxRows);
            && p.eligibleCount == |p.domains| && p.excludedCount == |p.excluded|
            && p.eligibleDomainCount == CountIf(p.domains, (r: Record) => r.eligibleDomain)
            && p.eligibleUrlCount == CountIf(p.domains, (r: Record) => r.eligibleUrl)
            && p.candidateCount == p.eligibleCount + p.excludedCount
  {
    var p := Build(env, infra, catalogRows, otxRows);
    Partition(env, infra, catalogRows, otxRows);
    var candidates := CandidateDomains(env, catalogRows, otxRows);
    assert |multiset(Names(p.domains))| == |p.domains| && |multiset(Names(p.excluded))| == |p.excluded|;
    assert |multiset(candidates)| == |candidates|;
    hide CandidateDomains, Records, Select, Lawful, CountIf;
  }

  /** A line names a host that its last infrastructure row excludes. */
  ghost predicate ListsExcludedHost(env: Environment, infra: seq<InfraRow>, lines: seq<string>) {
    exists l | l in lines :: LastRowExcludes(infra, env.canonicalHost, l)
  }

  /** A line names a host that some infrastructure row excludes. */
  ghost predicate ListsHostOfExclusion(env: Environment, infra: seq<InfraRow>, lines: seq<string>) {
    exists l | l in lines :: SomeRowExcludes(infra, env.canonicalHost, l)
  }

  lemma BuiltLines(env: Environment, infra: seq<InfraRow>, catalogRows: seq<Row>, otxRows: seq<Row>, r: Record)
    requires Lawful(env.functions) && r in Build(env, infra, catalogRows, otxRows).domains
    ensures LineOf(r, AllMode, env.strip) == [r.domain]
    ensures LineOf(r, DomainMode, env.strip) == if r.eligibleDomain then [r.domain] else []
    ensures r.eligibleDomain || r.eligibleUrl
    ensures r.eligibleDomain <==> !LastRowExcludes(infra, env.canonicalHost, r.domain)
  {
    hide Build, Lawful, LastRowExcludes;
    BuiltRecord(env, infra, catalogRows, otxRows, r);
    ExportIsSound(env, infra, catalogRows, otxRows, r);
  }

  /**
   The domain list never names a host that its last infrastructure row excludes.  Mode `all` prints
   a record's domain even when only its URL is eligible, so its list names such a host exactly when
   some eligible record is eligible as a URL but not as a domain.
   */
  lemma DomainListIsClean(env: Environment, infra: seq<InfraRow>, catalogRows: seq<Row>, otxRows: seq<Row>)
    requires Lawful(env.functions)
    ensures var p := Build(env, infra, catalogRows, otxRows);
            && !ListsExcludedHost(env, infra, TxtLines(p.domains, DomainMode, env.strip))
            && (ListsExcludedHost(env, infra, TxtLines(p.domains, AllMode, env.strip)) <==>
                exists r :: r in p.domains && r.eligibleUrl && !r.eligibleDomain)
  {
    hide Build, Lawful, LastRowExcludes, TxtLines, Sorted, LineOf, LinesOf;
    var p := Build(env, infra, catalogRows, otxRows);
    TxtMembers(p.domains, DomainMode, env.strip);
    TxtMembers(p.domains, AllMode, env.strip);
    forall r | r in p.domains
      ensures LineOf(r, AllMode, env.strip) == [r.domain]
      ensures LineOf(r, DomainMode, env.strip) == if r.eligibleDomain then [r.domain] else []
      ensures r.eligibleDomain || r.eligibleUrl
      ensures r.eligibleDomain <==> !LastRowExcludes(infra, env.canonicalHost, r.domain)
    {
      BuiltLines(env, infra, catalogRows, otxRows, r);
    }
    if exists r :: r in p.domains && r.eligibleUrl && !r.eligibleDomain {
      var r :| r in p.domains && r.eligibleUrl && !r.eligibleDomain;
      assert r.domain in LineOf(r, AllMode, env.strip);
    }
  }

  /** When no excluding row is overruled, the domain list names no host that any row excludes. */
  lemma NoHostOfExclusion(env: Environment, infra: seq<InfraRow>, catalogRows: seq<Row>, otxRows: seq<Row>)
    requires Lawful(env.functions) && NoneOverruled(infra, env.canonicalHost)
    ensures var lines := TxtLines(Build(env, infra, catalogRows, otxRows).domains, DomainMode, env.strip);
            !ListsHostOfExclusion(env, infra, lines)
  {
    DomainListIsClean(env, infra, catalogRows, otxRows);
    ExclusionsAgreeIff(infra, env.canonicalHost);
    hide Build, Lawful, TxtLines, LastRowExcludes, SomeRowExcludes, NoneOverruled;
  }

  /** A mode is one of the three names; a missing or blank one means domains. */
  lemma ModeParsedIff(mode: Option<string>, clean: string -> string)
    ensures var name := clean(if mode.Some? && mode.value != "" then mode.value else "domains");
            && (NormalizeMode(mode, clean) == Ok(DomainMode) <==> name == "domains")
            && (NormalizeMode(mode, clean) == Ok(UrlMode) <==> name == "urls")
            && (NormalizeMode(mode, clean) == Ok(AllMode) <==> name == "all")
            && (NormalizeMode(mode, clean).Err? <==> name != "domains" && name != "urls" && name != "all")
  {
    assert |"domains"| == 7 && |"urls"| == 4 && |"all"| == 3;
  }

  lemma {:induction false} SplitAfter(lines: seq<string>, rest: string)
    requires forall l | l in lines :: '\n' !in l
    ensures SplitLines(Unlines(lines) + rest) == lines + SplitLines(rest)
  {
    if lines == [] {
      assert "" + rest == rest;
    } else {
      assert lines[0] in lines;
      assert lines[0] + "\n" + Unlines(lines[1..]) + rest == lines[0] + "\n" + (Unlines(lines[1..]) + rest);
      SplitFirst(lines[0], Unlines(lines[1..]) + rest);
      SplitAfter(lines[1..], rest);
      assert lines == [lines[0]] + lines[1..];
    }
  }

  /** The text starts with five comments that give the time, the mode and the counts. */
  lemma HeaderSays(p: Payload, mode: Mode, strip: string -> string)
    requires '\n' !in p.generatedAt
    ensures var name := if mode == DomainMode then "domains" else if mode == UrlMode then "urls" else "all";
            var lines := SplitLines(Txt(p, mode, strip));
            && |lines| >= 5 && lines[0] == "# BRIEFR malicious-domain candidates"
            && lines[1] == "# generated_at: " + p.generatedAt && lines[2] == "# mode: " + name
            && lines[3] == "# eligible: " + Durations.NatText(EligibleCount(p.domains, mode))
            && lines[4] == "# excluded: " + Durations.NatText(p.excludedCount)
  {
    hide EligibleCount, TxtLines, Durations.NatText, SplitLines, Unlines;
    HeaderIsComment(p, mode);
    UnlinesSplits(HeaderLines(p, mode), TxtLines(p.domains, mode, strip));
    SplitAfter(HeaderLines(p, mode), Unlines(TxtLines(p.domains, mode, strip)));
  }

  /** The routes never serve that list: whatever mode a TXT request asks for, an answer is not `all`. */
  lemma TxtRouteRefusesAll(mode: Option<string>, clean: string -> string)
    ensures AdminMode(mode, clean, false) != Ok(AllMode)
    ensures AdminMode(mode, clean, true) == NormalizeMode(mode, clean)
    ensures NormalizeMode(mode, clean).Ok? && NormalizeMode(mode, clean) != Ok(AllMode) ==>
            AdminMode(mode, clean, false) == NormalizeMode(mode, clean)
  {
  }

  lemma {:induction false} LinesCounted(records: seq<Record>, mode: Mode, strip: string -> string)
    ensures |LinesOf(records, mode, strip)| <= EligibleCount(records, mode)
    ensures |LinesOf(records, mode, strip)| == EligibleCount(records, mode) <==>
            forall r | r in records && MatchesMode(r, mode) :: |LineOf(r, mode, strip)| == 1
  {
    if records != [] {
      LinesCounted(records[1..], mode, strip);
      CountsAgree(records[1..], (r: Record) => MatchesMode(r, mode), (r: Record) => MatchesMode(r, mode));
      hide MatchesMode;
      assert forall r :: r in records <==> r == records[0] || r in records[1..];
    }
  }

  /** The number in the header is the number of lines, except that the URL list skips a record whose
      exact indicator is blank but still counts it. */
  lemma HeaderCountIff(p: Payload, mode: Mode, strip: string -> string)
    ensures |TxtLines(p.domains, mode, strip)| == EligibleCount(p.domains, mode) <==>
            mode != UrlMode || forall r | r in p.domains && MatchesMode(r, mode) :: strip(r.exactIoc) != ""
  {
    TxtMembers(p.domains, mode, strip);
    LinesCounted(p.domains, mode, strip);
    hide MatchesMode, EligibleCount, LinesOf, TxtLines;
  }

  // ---------------------------------------------------------------- the CSV cells

  predicate StartsFormula(s: string) {
    s != "" && s[0] in "=+-@"
  }

  function EscapeCell(s: string): string {
    if StartsFormula(s) then "'" + s else s
  }

  /**
   Escaping never leaves a cell that starts with one of the four signs that a spreadsheet takes for a
   formula, leaves any other cell alone, and merges two values exactly when one is the other behind
   an apostrophe and the other one starts a formula.
   */
  lemma EscapeMergesIff(s: string, t: string)
    ensures var cell := EscapeCell(s);
            && (cell != "" ==> cell[0] != '=' && cell[0] != '+' && cell[0] != '-' && cell[0] != '@')
            && (s == "" || (s[0] != '=' && s[0] != '+' && s[0] != '-' && s[0] != '@') ==> cell == s)
    ensures EscapeCell(s) == EscapeCell(t) <==>
            s == t || (StartsFormula(t) && s == "'" + t) || (StartsFormula(s) && t == "'" + s)
  {
    assert ("'" + s)[1..] == s && ("'" + t)[1..] == t;
  }
}
