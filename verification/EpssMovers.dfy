/** The EPSS movers section (backend/brief/service.py). */
module EpssMovers {
  import opened Options
  import opened Ranking
  import opened ActionQueue

  /** A change-history row joined with the fields of its CVE. */
  datatype ChangeRow = ChangeRow(
    cveId: string, fields: map<string, Value>, oldValue: Value, newValue: Value, detectedAt: string)

  datatype Delta = Delta(oldValue: real, newValue: real, delta: real)

  /** How a text reads as a number, and rounding to six places. */
  datatype Numerics = Numerics(parse: string -> Option<real>, round6: real -> real)

  /** A missing or empty history value is a real zero. */
  function ParseHistory(env: Numerics, v: Value): Option<real> {
    match v
    case Null => Some(0.0)
    case Text(s) => if s == "" then Some(0.0) else env.parse(s)
    case Number(x) => Some(x)
    case Flag(b) => Some(if b then 1.0 else 0.0)
    case Listed(_) => None
  }

  function EpssDelta(env: Numerics, oldValue: Value, newValue: Value): Option<Delta> {
    match (ParseHistory(env, oldValue), ParseHistory(env, newValue))
    case (Some(before), Some(after)) =>
      var delta := env.round6(after - before);
      if delta <= 0.0 then None else Some(Delta(before, after, delta))
    case _ => None
  }

  function MoverItem(row: ChangeRow, d: Delta): ItemValue {
    ItemValue(row.cveId,
              row.fields["epss_delta" := Number(d.delta)]["epss_old" := Number(d.oldValue)]
                        ["epss_new" := Number(d.newValue)]["changed_at" := Text(row.detectedAt)],
              ["epss_mover"])
  }

  function Candidate(env: Numerics, row: ChangeRow): seq<Scored<ItemValue>> {
    match EpssDelta(env, row.oldValue, row.newValue)
    case None => []
    case Some(d) => [Scored(d.delta, MoverItem(row, d))]
  }

  function Candidates(env: Numerics, rows: seq<ChangeRow>): seq<Scored<ItemValue>> {
    if rows == [] then [] else Candidates(env, rows[..|rows| - 1]) + Candidate(env, rows[|rows| - 1])
  }

  /** _build_epss_movers. */
  method BuildEpssMovers(env: Numerics, rows: seq<ChangeRow>, limit: nat) returns (movers: seq<ItemValue>)
    ensures movers == Items(Top(Candidates(env, rows), limit))
  {
    var candidates: seq<Scored<ItemValue>> := [];
    for i := 0 to |rows|
      invariant candidates == Candidates(env, rows[..i])
    {
      assert rows[..i + 1][..i] == rows[..i];
      match EpssDelta(env, rows[i].oldValue, rows[i].newValue)
      case None =>
        assert candidates + [] == candidates;
        continue;
      case Some(d) =>
        candidates := candidates + [Scored(d.delta, MoverItem(rows[i], d))];
    }
    assert rows[..|rows|] == rows;
    movers := Items(Top(candidates, limit));
  }

  lemma {:induction false} CandidatesAre(env: Numerics, rows: seq<ChangeRow>)
    ensures forall c :: c in Candidates(env, rows) <==> exists r :: r in rows && c in Candidate(env, r)
  {
    hide Candidate;
    if rows != [] {
      var before, last := rows[..|rows| - 1], rows[|rows| - 1];
      CandidatesAre(env, before);
      assert rows == before + [last];
    }
  }

  lemma CandidateScore(env: Numerics, row: ChangeRow)
    ensures forall c | c in Candidate(env, row) ::
              c.score > 0.0 && Get(c.item.fields, "epss_delta") == Number(c.score) && c.item.reasons == ["epss_mover"]
    ensures Candidate(env, row) != [] <==>
            ParseHistory(env, row.oldValue).Some? && ParseHistory(env, row.newValue).Some? &&
            env.round6(ParseHistory(env, row.newValue).value - ParseHistory(env, row.oldValue).value) > 0.0
  {
  }

  /**
   The section lists rises only, the largest first, and the action queue scores each of them by its
   rise; a rise that the limit leaves out is no larger than any that is listed.
   */
  lemma MoversAreLargest(env: Numerics, rows: seq<ChangeRow>, limit: nat, daysLeft: DaysLeft)
    ensures var top := Top(Candidates(env, rows), limit);
            && (forall c | c in top :: exists r :: r in rows && c in Candidate(env, r))
            && (forall c | c in top :: c.score > 0.0 && PriorityScore(c.item, daysLeft) == 70.0 + 100.0 * c.score)
            && (forall i, j | 0 <= i < j < |top| :: top[i].score >= top[j].score)
            && (forall r, c, t | r in rows && c in Candidate(env, r) && c !in top && t in top :: t.score >= c.score)
  {
    var all := Candidates(env, rows);
    var omitted := TopIsBest(all, limit);
    var top := Top(all, limit);
    CandidatesAre(env, rows);
    hide Candidates, Candidate, Top, PriorityScore;
    assert forall c :: c in all <==> c in multiset(top) + multiset(omitted);
    assert forall c | c in top :: c in all;
    assert forall c | c in all && c !in top :: c in omitted;
    forall c | c in top
      ensures c.score > 0.0 && PriorityScore(c.item, daysLeft) == 70.0 + 100.0 * c.score
    {
      var r :| r in rows && c in Candidate(env, r);
      CandidateScore(env, r);
      MoverPriority(c, daysLeft);
    }
  }

  lemma MoverPriority(c: Scored<ItemValue>, daysLeft: DaysLeft)
    requires c.item.reasons == ["epss_mover"] && Get(c.item.fields, "epss_delta") == Number(c.score)
    ensures PriorityScore(c.item, daysLeft) == 70.0 + 100.0 * c.score
  {
    assert "epss_mover" != "kev_due_soon" && "epss_mover" != "stack_match" && "epss_mover" != "new_kev" by {
      assert |"epss_mover"| == 10 && |"kev_due_soon"| == 12 && |"stack_match"| == 11 && |"new_kev"| == 7;
    }
  }
}
