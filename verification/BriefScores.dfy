/** What the numbers of the morning brief are (backend/brief/service.py): priorities and EPSS rises. */
module BriefScores {
  import opened Options
  import opened Ranking
  import opened ActionQueue
  import opened EpssMovers
  import opened BriefBuilder

  // ---------------------------------------------------------------- priorities

  lemma ReasonNames()
    ensures "kev_due_soon" != "new_kev" && "kev_due_soon" != "epss_mover" && "kev_due_soon" != "stack_match"
    ensures "new_kev" != "epss_mover" && "new_kev" != "stack_match" && "epss_mover" != "stack_match"
  {
    assert |"kev_due_soon"| == 12 && |"new_kev"| == 7 && |"epss_mover"| == 10 && |"stack_match"| == 11;
  }

  function Days(due: Value, daysLeft: DaysLeft): Option<int> {
    if due.Text? && due.text != "" then daysLeft(due.text) else None
  }

  /**
   What a reason is worth on its own: a new KEV entry 90; one that is due 100, and a point for each day
   that it is closer than a fortnight; an EPSS rise 70 and its size in percent.
   */
  lemma SingleReasons(id: string, fields: map<string, Value>, daysLeft: DaysLeft)
    ensures
      var days, delta := Days(Get(fields, "kev_due_date"), daysLeft), Get(fields, "epss_delta");
      var due := PriorityScore(ItemValue(id, fields, ["kev_due_soon"]), daysLeft);
      var mover := PriorityScore(ItemValue(id, fields, ["epss_mover"]), daysLeft);
      && PriorityScore(ItemValue(id, fields, ["new_kev"]), daysLeft) == 90.0
      && (days.None? || (days.Some? && days.value >= 14) ==> due == 100.0)
      && (days.Some? && days.value < 14 ==> due == (114 - days.value) as real)
      && (delta.Number? ==> mover == 70.0 + 100.0 * delta.number)
      && (delta == Null ==> mover == 70.0)
  {
    ReasonNames();
  }

  /** A stack match is worth 60, 15 more on the KEV list, and up to 20 for its EPSS score. */
  lemma StackMatch(id: string, fields: map<string, Value>, daysLeft: DaysLeft)
    ensures
      var epss, kev := Get(fields, "epss_score"), Get(fields, "is_kev");
      var listed := kev == Flag(true) || (kev.Number? && kev.number != 0.0) || (kev.Text? && kev.text != "");
      var unlisted := kev == Null || kev == Flag(false) || kev == Number(0.0) || kev == Text("");
      var score := PriorityScore(ItemValue(id, fields, ["stack_match"]), daysLeft);
      && (epss == Null && unlisted ==> score == 60.0)
      && (epss == Null && listed ==> score == 75.0)
      && (epss.Number? && unlisted ==> score == 60.0 + 20.0 * epss.number)
      && (epss.Number? && listed ==> score == 75.0 + 20.0 * epss.number)
  {
    ReasonNames();
  }

  /** What a list of reasons is worth with the fields of an item. */
  function Worth(fields: map<string, Value>, reasons: seq<string>, daysLeft: DaysLeft): real {
    PriorityScore(ItemValue("", fields, reasons), daysLeft)
  }

  lemma PartsAdd(fields: map<string, Value>, a: seq<string>, b: seq<string>, daysLeft: DaysLeft)
    requires forall r | r in b :: r !in a
    ensures var x, y, xy := ItemValue("", fields, a), ItemValue("", fields, b), ItemValue("", fields, a + b);
            && KevDueScore(xy, daysLeft) == KevDueScore(x, daysLeft) + KevDueScore(y, daysLeft)
            && MoverScore(xy) == MoverScore(x) + MoverScore(y) && StackScore(xy) == StackScore(x) + StackScore(y)
            && ("new_kev" in a + b <==> "new_kev" in a || "new_kev" in b)
  {
    hide DueScore, Truthy, NumberOr, Get;
    assert forall r :: r in a + b <==> r in a || r in b;
  }

  lemma NoReasons(fields: map<string, Value>, daysLeft: DaysLeft)
    ensures Worth(fields, [], daysLeft) == 0.0
  {
  }

  /** Different reasons add up. */
  lemma ReasonsAdd(fields: map<string, Value>, a: seq<string>, b: seq<string>, daysLeft: DaysLeft)
    requires forall r | r in b :: r !in a
    ensures Worth(fields, a + b, daysLeft) == Worth(fields, a, daysLeft) + Worth(fields, b, daysLeft)
    ensures Worth(fields, [], daysLeft) == 0.0
  {
    PartsAdd(fields, a, b, daysLeft);
    NoReasons(fields, daysLeft);
    hide KevDueScore, MoverScore, StackScore;
  }

  /** Repeated reasons, those of no section, and the order of reasons are worth nothing. */
  lemma OtherReasonsAddNothing(item: ItemValue, reasons: seq<string>, daysLeft: DaysLeft)
    requires forall r | r in {"kev_due_soon", "new_kev", "epss_mover", "stack_match"} ::
               r in reasons <==> r in item.reasons
    ensures PriorityScore(item.(reasons := reasons), daysLeft) == PriorityScore(item, daysLeft)
    ensures PriorityScore(item, daysLeft) == Worth(item.fields, reasons, daysLeft)
  {
    hide DueScore, Truthy, NumberOr, Get;
  }

  // ---------------------------------------------------------------- which values are kept

  /**
   A second item of a CVE fills a field only if it is missing, None, or an empty text or list: zero and
   False stay.
   */
  lemma SecondFillsBlanks(a: ItemValue, b: ItemValue, key: string)
    requires a.cveId == b.cveId
    ensures a.cveId in Collect([a, b]).byId
    ensures var first, kept := Get(a.fields, key), Get(Collect([a, b]).byId[a.cveId].fields, key);
            kept == if (first == Null || first == Text("") || first == Listed([])) && key in b.fields
                    then b.fields[key] else first
  {
    assert [a, b][..1] == [a] && [a][..0] == [];
    assert Collect([a]) == Add(EMPTY, a);
    assert Collect([a, b]) == Add(Collect([a]), b);
    hide Dedup;
  }

  /** The queue is built from all items of all sections but the campaigns, in order. */
  lemma QueuedItems(sections: seq<SectionValue>, last: SectionValue)
    ensures Queued([]) == []
    ensures last.key != "active_campaigns" ==> Queued(sections + [last]) == Queued(sections) + last.items
    ensures last.key == "active_campaigns" ==> Queued(sections + [last]) == Queued(sections)
  {
    assert (sections + [last])[..|sections|] == sections;
  }

  // ---------------------------------------------------------------- EPSS rises

  function SixPlaces(k: int): real {
    k as real / 1000000.0
  }

  ghost predicate RoundsTo6(env: Numerics, x: real) {
    (exists k: int :: env.round6(x) == SixPlaces(k)) && x - 0.0000005 <= env.round6(x) <= x + 0.0000005
  }

  /** The number that a history value stands for: none counts as zero. */
  ghost predicate Reads(env: Numerics, v: Value, x: real) {
    || ((v == Null || v == Text("")) && x == 0.0)
    || v == Number(x) || (v == Flag(true) && x == 1.0) || (v == Flag(false) && x == 0.0)
    || (v.Text? && v.text != "" && env.parse(v.text) == Some(x))
  }

  /**
   A row whose values read as numbers is a mover when the second is greater by more than half of the
   sixth decimal, and not when it is not; its score is the rounded rise, and its item shows both values.
   */
  lemma RisesSurface(env: Numerics, row: ChangeRow, before: real, after: real)
    requires Reads(env, row.oldValue, before) && Reads(env, row.newValue, after)
    requires RoundsTo6(env, after - before)
    ensures after - before > 0.0000005 ==> |Candidate(env, row)| == 1
    ensures after - before < 0.0000005 ==> Candidate(env, row) == []
    ensures forall c | c in Candidate(env, row) ::
              && c.score == env.round6(after - before)
              && after - before - 0.0000005 <= c.score <= after - before + 0.0000005
              && c.item.cveId == row.cveId && c.item.reasons == ["epss_mover"]
              && Get(c.item.fields, "epss_delta") == Number(c.score)
              && Get(c.item.fields, "epss_old") == Number(before) && Get(c.item.fields, "epss_new") == Number(after)
              && Get(c.item.fields, "changed_at") == Text(row.detectedAt)
              && forall key | key in row.fields && key !in {"epss_delta", "epss_old", "epss_new", "changed_at"} ::
                   Get(c.item.fields, key) == row.fields[key]
  {
    assert |"epss_delta"| == 10 && |"epss_old"| == 8 && |"epss_new"| == 8 && |"changed_at"| == 10;
    assert "epss_old"[5] == 'o' && "epss_new"[5] == 'n' && "epss_delta"[0] == 'e' && "changed_at"[0] == 'c';
    var k: int :| env.round6(after - before) == SixPlaces(k);
    assert k as real == 1000000.0 * SixPlaces(k);
  }

  /** A value that does not read as a number gives no mover. */
  lemma UnreadableIsNoMover(env: Numerics, row: ChangeRow)
    ensures Candidate(env, row) != [] ==>
              exists before, after :: Reads(env, row.oldValue, before) && Reads(env, row.newValue, after)
  {
    match (ParseHistory(env, row.oldValue), ParseHistory(env, row.newValue))
    case (Some(before), Some(after)) =>
      assert Reads(env, row.oldValue, before) && Reads(env, row.newValue, after);
    case _ =>
  }
}
