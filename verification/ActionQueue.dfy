/** The morning brief's action queue as a function of its sections (backend/brief/service.py). */
module ActionQueue {
  import opened Options
  import opened Ranking

  datatype Value = Null | Text(text: string) | Number(number: real) | Flag(flag: bool) | Listed(elements: seq<string>)

  /** A brief item: a dictionary whose "cve_id" and "reasons" entries are kept apart from the others. */
  datatype ItemValue = ItemValue(cveId: string, fields: map<string, Value>, reasons: seq<string>)

  /** Missing, None, the empty string and the empty list all count as blank; zero and False do not. */
  predicate Blank(v: Value) {
    v == Null || v == Text("") || v == Listed([])
  }

  function Get(fields: map<string, Value>, key: string): Value {
    if key in fields then fields[key] else Null
  }

  predicate Truthy(v: Value) {
    match v
    case Null => false
    case Text(s) => s != ""
    case Number(x) => x != 0.0
    case Flag(b) => b
    case Listed(xs) => xs != []
  }

  function NumberOr(v: Value, default: real): real {
    if v.Number? then v.number else default
  }

  // ---------------------------------------------------------------- the score

  /** Days until a due date, or None when the date does not parse. */
  type DaysLeft = string -> Option<int>

  function DueScore(due: Value, daysLeft: DaysLeft): real {
    if !due.Text? || due.text == "" then 0.0
    else
      match daysLeft(due.text)
      case None => 0.0
      case Some(days) => if 14 - days > 0 then (14 - days) as real else 0.0
  }

  function KevDueScore(item: ItemValue, daysLeft: DaysLeft): real {
    if "kev_due_soon" in item.reasons then 100.0 + DueScore(Get(item.fields, "kev_due_date"), daysLeft) else 0.0
  }

  function MoverScore(item: ItemValue): real {
    if "epss_mover" in item.reasons then 70.0 + NumberOr(Get(item.fields, "epss_delta"), 0.0) * 100.0 else 0.0
  }

  function StackScore(item: ItemValue): real {
    if "stack_match" in item.reasons then
      60.0 + (if Truthy(Get(item.fields, "is_kev")) then 15.0 else 0.0)
      + NumberOr(Get(item.fields, "epss_score"), 0.0) * 20.0
    else 0.0
  }

  /** _priority_score. */
  function PriorityScore(item: ItemValue, daysLeft: DaysLeft): real {
    KevDueScore(item, daysLeft) + (if "new_kev" in item.reasons then 90.0 else 0.0)
    + MoverScore(item) + StackScore(item)
  }

  // ---------------------------------------------------------------- merging

  /** Fields of the second fill the blanks of the first. */
  function FillBlanks(a: map<string, Value>, b: map<string, Value>): map<string, Value> {
    map k | k in a.Keys + b.Keys :: if k in b && Blank(Get(a, k)) then b[k] else a[k]
  }

  function Merge(existing: ItemValue, item: ItemValue): ItemValue {
    ItemValue(existing.cveId, FillBlanks(existing.fields, item.fields), Dedup(existing.reasons + item.reasons))
  }

  /** The dictionary by id, with its keys in insertion order. */
  datatype Queue = Queue(order: seq<string>, byId: map<string, ItemValue>)

  const EMPTY: Queue := Queue([], map[])

  function Add(q: Queue, item: ItemValue): Queue {
    if item.cveId in q.byId then q.(byId := q.byId[item.cveId := Merge(q.byId[item.cveId], item)])
    else Queue(q.order + [item.cveId], q.byId[item.cveId := item])
  }

  function Collect(items: seq<ItemValue>): Queue {
    if items == [] then EMPTY else Add(Collect(items[..|items| - 1]), items[|items| - 1])
  }

  ghost predicate Keyed(q: Queue) {
    && (forall id :: id in q.order <==> id in q.byId)
    && (forall id | id in q.byId :: q.byId[id].cveId == id)
  }

  function Values(q: Queue, ids: seq<string>): seq<ItemValue>
    requires forall id | id in ids :: id in q.byId
  {
    if ids == [] then [] else [q.byId[ids[0]]] + Values(q, ids[1..])
  }

  function Score(items: seq<ItemValue>, daysLeft: DaysLeft): seq<Scored<ItemValue>> {
    if items == [] then [] else [Scored(PriorityScore(items[0], daysLeft), items[0])] + Score(items[1..], daysLeft)
  }

  function Items<T>(xs: seq<Scored<T>>): seq<T> {
    if xs == [] then [] else [xs[0].item] + Items(xs[1..])
  }

  /** _build_action_queue, from the items of the sections in order. */
  function ActionQueueOf(items: seq<ItemValue>, limit: nat, daysLeft: DaysLeft): seq<ItemValue> {
    var q := Collect(items);
    CollectKeyed(items);
    Items(Top(Score(Values(q, q.order), daysLeft), limit))
  }

  lemma {:induction false} CollectKeyed(items: seq<ItemValue>)
    ensures Keyed(Collect(items)) && NoDup(Collect(items).order)
  {
    if items != [] {
      CollectKeyed(items[..|items| - 1]);
      hide Merge;
    }
  }

  // ---------------------------------------------------------------- what the queue holds of one CVE

  /** The items of one CVE, in order. */
  function Mentions(items: seq<ItemValue>, id: string): seq<ItemValue> {
    if items == [] then []
    else
      var before, last := Mentions(items[..|items| - 1], id), items[|items| - 1];
      if last.cveId == id then before + [last] else before
  }

  function AllReasons(items: seq<ItemValue>): seq<string> {
    if items == [] then [] else AllReasons(items[..|items| - 1]) + items[|items| - 1].reasons
  }

  /** The first value of a field that is not blank. */
  function FirstFilled(items: seq<ItemValue>, key: string): Option<Value> {
    if items == [] then None
    else
      match FirstFilled(items[..|items| - 1], key)
      case Some(v) => Some(v)
      case None =>
        var v := Get(items[|items| - 1].fields, key);
        if Blank(v) then None else Some(v)
  }

  lemma {:induction false} ReasonsKept(items: seq<ItemValue>, id: string)
    ensures id in Collect(items).byId <==> Mentions(items, id) != []
    ensures Mentions(items, id) != [] ==>
            var reasons := Collect(items).byId[id].reasons;
            && reasons == (if |Mentions(items, id)| == 1 then AllReasons(Mentions(items, id))
                           else Dedup(AllReasons(Mentions(items, id))))
  {
    if items != [] {
      var rest, item := items[..|items| - 1], items[|items| - 1];
      ReasonsKept(rest, id);
      if item.cveId == id {
        var m := Mentions(rest, id);
        assert (m + [item])[..|m|] == m;
        if m == [] {
          assert AllReasons([item]) == [] + item.reasons == item.reasons;
        } else {
          DedupAbsorbs(AllReasons(m), item.reasons);
        }
      }
    }
  }

  lemma {:induction false} KeysKept(items: seq<ItemValue>, id: string, key: string)
    ensures id in Collect(items).byId <==> Mentions(items, id) != []
    ensures Mentions(items, id) != [] ==>
            (key in Collect(items).byId[id].fields <==> exists m :: m in Mentions(items, id) && key in m.fields)
  {
    hide Dedup, Blank;
    if items != [] {
      var rest, item := items[..|items| - 1], items[|items| - 1];
      KeysKept(rest, id, key);
      if item.cveId == id {
        var m := Mentions(rest, id);
        assert forall x :: x in m + [item] <==> x in m || x == item;
      }
    }
  }

  lemma {:induction false} FilledKept(items: seq<ItemValue>, id: string, key: string)
    ensures id in Collect(items).byId <==> Mentions(items, id) != []
    ensures Mentions(items, id) != [] ==>
            match FirstFilled(Mentions(items, id), key)
            case Some(v) => Get(Collect(items).byId[id].fields, key) == v && !Blank(v)
            case None => Blank(Get(Collect(items).byId[id].fields, key))
  {
    assert Blank(Null);
    hide Dedup, Blank;
    if items != [] {
      var rest, item := items[..|items| - 1], items[|items| - 1];
      FilledKept(rest, id, key);
      if item.cveId == id {
        var m := Mentions(rest, id);
        assert (m + [item])[..|m|] == m;
      }
    }
  }

  lemma FieldsKept(items: seq<ItemValue>, id: string, key: string)
    ensures id in Collect(items).byId <==> Mentions(items, id) != []
    ensures Mentions(items, id) != [] ==>
            var kept := Collect(items).byId[id];
            && (match FirstFilled(Mentions(items, id), key)
                case Some(v) => Get(kept.fields, key) == v && !Blank(v)
                case None => Blank(Get(kept.fields, key)))
            && (key in kept.fields <==> exists m :: m in Mentions(items, id) && key in m.fields)
  {
    hide Collect, Mentions, FirstFilled, Blank;
    FilledKept(items, id, key);
    KeysKept(items, id, key);
  }

  // ---------------------------------------------------------------- the ranked result

  lemma {:induction false} ValuesAre(q: Queue, ids: seq<string>)
    requires Keyed(q) && forall id | id in ids :: id in q.byId
    ensures |Values(q, ids)| == |ids|
    ensures forall i | 0 <= i < |ids| :: Values(q, ids)[i] == q.byId[ids[i]] && Values(q, ids)[i].cveId == ids[i]
  {
    if ids != [] {
      ValuesAre(q, ids[1..]);
      assert ids[0] in ids;
    }
  }

  lemma {:induction false} ScoreIs(items: seq<ItemValue>, daysLeft: DaysLeft)
    ensures |Score(items, daysLeft)| == |items|
    ensures forall i | 0 <= i < |items| ::
              Score(items, daysLeft)[i] == Scored(PriorityScore(items[i], daysLeft), items[i])
  {
    hide PriorityScore;
    if items != [] {
      ScoreIs(items[1..], daysLeft);
    }
  }

  lemma {:induction false} ItemsAre<T>(xs: seq<Scored<T>>)
    ensures |Items(xs)| == |xs| && forall i | 0 <= i < |xs| :: Items(xs)[i] == xs[i].item
  {
    if xs != [] {
      ItemsAre(xs[1..]);
    }
  }

  lemma {:induction false} NoDupCounts<T>(xs: seq<T>)
    ensures NoDup(xs) <==> forall x :: multiset(xs)[x] <= 1
  {
    if xs != [] {
      var before, last := xs[..|xs| - 1], xs[|xs| - 1];
      NoDupCounts(before);
      assert xs == before + [last];
      assert forall x :: multiset(xs)[x] == multiset(before)[x] + multiset{last}[x];
      if NoDup(xs) {
        assert NoDup(before) && last !in before;
      } else if NoDup(before) {
        var i, j :| 0 <= i < j < |xs| && xs[i] == xs[j];
        assert j == |before|;
        assert before[i] == last;
        assert last in multiset(before);
        assert multiset(xs)[last] >= 2;
      } else {
        var x :| multiset(before)[x] > 1;
        assert multiset(xs)[x] > 1;
      }
    }
  }

  /** The entry of the dictionary for a CVE, with its score. */
  function Entry(items: seq<ItemValue>, id: string, daysLeft: DaysLeft): Scored<ItemValue>
    requires id in Collect(items).byId
  {
    Scored(PriorityScore(Collect(items).byId[id], daysLeft), Collect(items).byId[id])
  }

  /** The scored dictionary holds each CVE once. */
  lemma Ranked(items: seq<ItemValue>, daysLeft: DaysLeft) returns (all: seq<Scored<ItemValue>>)
    ensures Keyed(Collect(items))
    ensures all == Score(Values(Collect(items), Collect(items).order), daysLeft)
    ensures NoDup(all) && |all| == |Collect(items).order|
    ensures forall x | x in all :: x.item.cveId in Collect(items).byId && x == Entry(items, x.item.cveId, daysLeft)
    ensures forall id | id in Collect(items).byId :: Entry(items, id, daysLeft) in all
  {
    var q := Collect(items);
    CollectKeyed(items);
    ValuesAre(q, q.order);
    var values := Values(q, q.order);
    ScoreIs(values, daysLeft);
    all := Score(values, daysLeft);
    hide Collect, PriorityScore, Values, Score;
    EntriesRanked(items, daysLeft, q, all);
  }

  lemma EntriesRanked(items: seq<ItemValue>, daysLeft: DaysLeft, q: Queue, all: seq<Scored<ItemValue>>)
    requires q == Collect(items) && Keyed(q) && NoDup(q.order) && |all| == |q.order|
    requires forall i | 0 <= i < |all| :: q.order[i] in q.byId && all[i] == Entry(items, q.order[i], daysLeft)
    ensures NoDup(all)
    ensures forall x | x in all :: x.item.cveId in q.byId && x == Entry(items, x.item.cveId, daysLeft)
    ensures forall id | id in q.byId :: Entry(items, id, daysLeft) in all
  {
    hide Collect, PriorityScore;
    forall i | 0 <= i < |all| ensures all[i].item.cveId == q.order[i] {
      assert q.order[i] in q.byId;
    }
    forall id | id in q.byId ensures Entry(items, id, daysLeft) in all {
      assert id in q.order;
      var i :| 0 <= i < |q.order| && q.order[i] == id;
      assert all[i] == Entry(items, id, daysLeft);
    }
  }

  function Ids(items: seq<ItemValue>): seq<string> {
    if items == [] then [] else [items[0].cveId] + Ids(items[1..])
  }

  lemma {:induction false} IdsAre(items: seq<ItemValue>)
    ensures |Ids(items)| == |items| && forall i | 0 <= i < |items| :: Ids(items)[i] == items[i].cveId
  {
    if items != [] {
      IdsAre(items[1..]);
    }
  }

  lemma ItemKeepsId(items: seq<ItemValue>, id: string)
    requires id in Collect(items).byId
    ensures Collect(items).byId[id].cveId == id
  {
    CollectKeyed(items);
  }

  lemma TopIds(items: seq<ItemValue>, daysLeft: DaysLeft, all: seq<Scored<ItemValue>>,
               top: seq<Scored<ItemValue>>, queue: seq<ItemValue>)
    requires forall x | x in all :: x.item.cveId in Collect(items).byId && x == Entry(items, x.item.cveId, daysLeft)
    requires NoDup(top) && |queue| == |top|
    requires forall i | 0 <= i < |top| :: top[i] in all && queue[i] == top[i].item
    ensures NoDup(Ids(queue))
  {
    IdsAre(queue);
    hide Entry, Collect;
    forall i, j | 0 <= i < j < |queue| ensures Ids(queue)[i] != Ids(queue)[j] {
      assert top[i] in all && top[j] in all && top[i] != top[j];
    }
  }

  /** The part of a list without repetitions has none either. */
  lemma PartOf<T>(part: seq<T>, others: seq<T>, all: seq<T>)
    requires multiset(part) + multiset(others) == multiset(all) && NoDup(all)
    ensures NoDup(part)
    ensures forall i | 0 <= i < |part| :: part[i] in all
    ensures forall x | x in all && x !in part :: x in others
  {
    NoDupCounts(all);
    NoDupCounts(part);
    assert forall x :: multiset(part)[x] <= multiset(all)[x];
    forall i | 0 <= i < |part| ensures part[i] in all {
      assert part[i] in multiset(all);
    }
    forall x | x in all && x !in part ensures x in others {
      assert x in multiset(all) && x !in multiset(part);
      assert x in multiset(others);
    }
  }

  lemma OmittedBelow(items: seq<ItemValue>, daysLeft: DaysLeft, top: seq<Scored<ItemValue>>,
                     omitted: seq<Scored<ItemValue>>, queue: seq<ItemValue>, x: ItemValue, id: string)
    requires |queue| == |top| && forall i | 0 <= i < |top| :: queue[i] == top[i].item
    requires forall i | 0 <= i < |top| ::
               top[i].item.cveId in Collect(items).byId && top[i] == Entry(items, top[i].item.cveId, daysLeft)
    requires forall a, b | a in top && b in omitted :: a.score >= b.score
    requires x in queue && id in Collect(items).byId && id !in Ids(queue)
    requires Entry(items, id, daysLeft) in top || Entry(items, id, daysLeft) in omitted
    ensures PriorityScore(x, daysLeft) >= PriorityScore(Collect(items).byId[id], daysLeft)
  {
    IdsAre(queue);
    ItemKeepsId(items, id);
    hide Collect, PriorityScore, Ids;
    var i :| 0 <= i < |queue| && queue[i] == x;
    var e := Entry(items, id, daysLeft);
    assert top[i] in top && top[i].score == PriorityScore(x, daysLeft);
    forall j | 0 <= j < |top| ensures top[j] != e {
      assert Ids(queue)[j] == top[j].item.cveId;
    }
  }

  lemma TopScores(items: seq<ItemValue>, daysLeft: DaysLeft, top: seq<Scored<ItemValue>>, queue: seq<ItemValue>)
    requires |queue| == |top| && Descending(top)
    requires forall i | 0 <= i < |top| :: queue[i] == top[i].item &&
               top[i].item.cveId in Collect(items).byId && top[i] == Entry(items, top[i].item.cveId, daysLeft)
    ensures forall i, j | 0 <= i < j < |queue| ::
              PriorityScore(queue[i], daysLeft) >= PriorityScore(queue[j], daysLeft)
  {
    hide PriorityScore, Collect;
  }

  /**
   The action queue names no CVE twice.  It holds the merged entry of each CVE that it names, in
   descending order of score, as many as the limit allows, and no CVE that it leaves out scores
   above one that it keeps.
   */
  lemma QueueIsTop(items: seq<ItemValue>, limit: nat, daysLeft: DaysLeft)
    ensures var queue := ActionQueueOf(items, limit, daysLeft);
            && NoDup(Ids(queue))
            && |queue| == (if |Collect(items).order| <= limit then |Collect(items).order| else limit)
            && (forall x | x in queue :: x.cveId in Collect(items).byId && x == Collect(items).byId[x.cveId])
            && (forall i, j | 0 <= i < j < |queue| ::
                  PriorityScore(queue[i], daysLeft) >= PriorityScore(queue[j], daysLeft))
            && (forall x, id | x in queue && id in Collect(items).byId && id !in Ids(queue) ::
                  PriorityScore(x, daysLeft) >= PriorityScore(Collect(items).byId[id], daysLeft))
  {
    var all := Ranked(items, daysLeft);
    var omitted := TopIsBest(all, limit);
    var top := Top(all, limit);
    var queue := ActionQueueOf(items, limit, daysLeft);
    assert queue == Items(top);
    hide Collect, PriorityScore, Values, Score, Top, ActionQueueOf, Items, Ids, Keyed;
    ItemsAre(top);
    PartOf(top, omitted, all);
    TopIds(items, daysLeft, all, top, queue);
    TopScores(items, daysLeft, top, queue);
    hide Descending, NoDup;
    forall x, id | x in queue && id in Collect(items).byId && id !in Ids(queue)
      ensures PriorityScore(x, daysLeft) >= PriorityScore(Collect(items).byId[id], daysLeft)
    {
      assert Entry(items, id, daysLeft) in all;
      OmittedBelow(items, daysLeft, top, omitted, queue, x, id);
    }
  }

  /**
   What the queue says of a CVE: its reasons are those of all its items in first-seen order; the
   duplicates are gone exactly when the CVE was mentioned at least twice, or its only item had none.
   Every field has the first value that is not blank, if there is one.
   */
  lemma EntryMergesMentions(items: seq<ItemValue>, limit: nat, daysLeft: DaysLeft, x: ItemValue, key: string)
    requires x in ActionQueueOf(items, limit, daysLeft)
    ensures var mentions := Mentions(items, x.cveId);
            && mentions != []
            && (forall r :: r in x.reasons <==> r in AllReasons(mentions))
            && (x.reasons == Dedup(AllReasons(mentions)) <==> |mentions| >= 2 || NoDup(AllReasons(mentions)))
            && (NoDup(x.reasons) <==> |mentions| >= 2 || NoDup(AllReasons(mentions)))
            && (FirstFilled(mentions, key).Some? ==> Get(x.fields, key) == FirstFilled(mentions, key).value)
            && (FirstFilled(mentions, key).None? ==> Blank(Get(x.fields, key)))
  {
    QueueIsTop(items, limit, daysLeft);
    ReasonsKept(items, x.cveId);
    FieldsKept(items, x.cveId, key);
    hide Collect, Mentions, AllReasons, Dedup, FirstFilled, ActionQueueOf, PriorityScore, Ids, Blank, NoDup;
    DedupOf(AllReasons(Mentions(items, x.cveId)));
    DedupOfDistinct(AllReasons(Mentions(items, x.cveId)));
  }

  /** An item that comes with a repeated reason and is mentioned once keeps it. */
  lemma RepeatedReasonKept(daysLeft: DaysLeft)
    ensures var item := ItemValue("CVE-1", map[], ["new_kev", "new_kev"]);
            ActionQueueOf([item], 1, daysLeft) == [item] && !NoDup(item.reasons)
  {
    var item := ItemValue("CVE-1", map[], ["new_kev", "new_kev"]);
    var items := [item];
    assert items[..0] == [];
    assert Collect(items) == Queue(["CVE-1"], map["CVE-1" := item]);
    QueueIsTop(items, 1, daysLeft);
    var queue := ActionQueueOf(items, 1, daysLeft);
    assert queue[0] in queue;
    assert item.reasons[0] == item.reasons[1];
    hide ActionQueueOf;
  }

  // ---------------------------------------------------------------- ties

  lemma IdsAppend(items: seq<ItemValue>, last: ItemValue)
    ensures Ids(items + [last]) == Ids(items) + [last.cveId]
  {
    IdsAre(items);
    IdsAre(items + [last]);
  }

  /** The dictionary keeps its CVEs in the order in which they are first mentioned. */
  lemma {:induction false} OrderIsFirstMention(items: seq<ItemValue>)
    ensures Collect(items).order == Dedup(Ids(items))
  {
    if items != [] {
      var before, last := items[..|items| - 1], items[|items| - 1];
      OrderIsFirstMention(before);
      CollectKeyed(before);
      IdsAppend(before, last);
      assert items == before + [last];
      hide Merge, Ids;
      var ids := Ids(before) + [last.cveId];
      assert ids[..|ids| - 1] == Ids(before);
    }
  }

  /** CVEs of the same score stand in the queue in the order in which they were first mentioned. */
  lemma TiesByFirstMention(items: seq<ItemValue>, limit: nat, daysLeft: DaysLeft, i: nat, j: nat)
    requires i < j < |ActionQueueOf(items, limit, daysLeft)|
    requires var queue := ActionQueueOf(items, limit, daysLeft);
             PriorityScore(queue[i], daysLeft) == PriorityScore(queue[j], daysLeft)
    ensures var queue := ActionQueueOf(items, limit, daysLeft);
            Before(Dedup(Ids(items)), queue[i].cveId, queue[j].cveId)
  {
    var q := Collect(items);
    CollectKeyed(items);
    var all := Score(Values(q, q.order), daysLeft);
    var top := Top(all, limit);
    assert ActionQueueOf(items, limit, daysLeft) == Items(top);
    OrderIsFirstMention(items);
    ValuesAre(q, q.order);
    ScoreIs(Values(q, q.order), daysLeft);
    var omitted := TopIsBest(all, limit);
    hide Collect, Values, Score, Top, ActionQueueOf, Items, PriorityScore, Dedup, Ids, Before;
    ItemsAre(top);
    ScoredByPriority(all, top, omitted, daysLeft);
    TieIn(q.order, all, limit, i, j);
  }

  lemma TieIn(order: seq<string>, all: seq<Scored<ItemValue>>, limit: nat, i: nat, j: nat)
    requires |all| == |order| && forall k | 0 <= k < |all| :: all[k].item.cveId == order[k]
    requires i < j < |Top(all, limit)| && Top(all, limit)[i].score == Top(all, limit)[j].score
    ensures Before(order, Top(all, limit)[i].item.cveId, Top(all, limit)[j].item.cveId)
  {
    hide Top;
    TiesKeepOrder(all, limit, i, j);
    var a, b :| 0 <= a < b < |all| && all[a] == Top(all, limit)[i] && all[b] == Top(all, limit)[j];
    assert order[a] == Top(all, limit)[i].item.cveId && order[b] == Top(all, limit)[j].item.cveId;
  }

  lemma ScoredByPriority(all: seq<Scored<ItemValue>>, top: seq<Scored<ItemValue>>, omitted: seq<Scored<ItemValue>>,
                         daysLeft: DaysLeft)
    requires forall k | 0 <= k < |all| :: all[k].score == PriorityScore(all[k].item, daysLeft)
    requires multiset(top) + multiset(omitted) == multiset(all)
    ensures forall k | 0 <= k < |top| :: top[k].score == PriorityScore(top[k].item, daysLeft)
  {
    hide PriorityScore;
    forall k | 0 <= k < |top| ensures top[k].score == PriorityScore(top[k].item, daysLeft) {
      assert top[k] in multiset(all);
      var m :| 0 <= m < |all| && all[m] == top[k];
    }
  }

  // ---------------------------------------------------------------- merging and the score

  /** The EPSS numbers are not negative. */
  predicate Scorable(item: ItemValue) {
    NumberOr(Get(item.fields, "epss_delta"), 0.0) >= 0.0 && NumberOr(Get(item.fields, "epss_score"), 0.0) >= 0.0
  }

  /** A blank field contributes nothing to the score, so filling it can only add. */
  lemma FillKeeps(a: map<string, Value>, b: map<string, Value>, key: string)
    ensures var v, w := Get(a, key), Get(FillBlanks(a, b), key);
            if Blank(v) then (if key in b then w == b[key] else w == v) else w == v
  {
  }

  /** Merging another item into an entry never lowers its score. */
  lemma MergingNeverLowersTheScore(existing: ItemValue, item: ItemValue, daysLeft: DaysLeft)
    requires Scorable(existing) && Scorable(item)
    ensures PriorityScore(Merge(existing, item), daysLeft) >= PriorityScore(existing, daysLeft)
    ensures Scorable(Merge(existing, item))
  {
    var merged := Merge(existing, item);
    DedupOf(existing.reasons + item.reasons);
    assert forall r | r in existing.reasons :: r in merged.reasons;
    FillKeeps(existing.fields, item.fields, "kev_due_date");
    FillKeeps(existing.fields, item.fields, "epss_delta");
    FillKeeps(existing.fields, item.fields, "epss_score");
    FillKeeps(existing.fields, item.fields, "is_kev");
    hide FillBlanks, Dedup;
    assert KevDueScore(merged, daysLeft) >= KevDueScore(existing, daysLeft);
    assert MoverScore(merged) >= MoverScore(existing);
    assert StackScore(merged) >= StackScore(existing);
  }

  /** Nor does any number of further items: the score of a CVE's entry only ever grows. */
  lemma {:induction false} MoreItemsNeverLowerAScore(items: seq<ItemValue>, more: seq<ItemValue>, id: string,
                                                     daysLeft: DaysLeft)
    requires id in Collect(items).byId && forall x | x in items + more :: Scorable(x)
    ensures id in Collect(items + more).byId
    ensures PriorityScore(Collect(items + more).byId[id], daysLeft) >= PriorityScore(Collect(items).byId[id], daysLeft)
    decreases |more|
  {
    if more == [] {
      assert items + more == items;
    } else {
      var n := |more| - 1;
      assert (items + more)[..|items + more| - 1] == items + more[..n];
      assert more == more[..n] + [more[n]];
      assert forall x | x in items + more[..n] :: x in items + more;
      MoreItemsNeverLowerAScore(items, more[..n], id, daysLeft);
      EntriesAreScorable(items + more[..n]);
      assert more[n] in items + more;
      hide PriorityScore, Merge, Scorable;
      if more[n].cveId == id {
        MergingNeverLowersTheScore(Collect(items + more[..n]).byId[id], more[n], daysLeft);
      }
    }
  }

  lemma {:induction false} EntriesAreScorable(items: seq<ItemValue>)
    requires forall x | x in items :: Scorable(x)
    ensures forall id | id in Collect(items).byId :: Scorable(Collect(items).byId[id])
  {
    if items != [] {
      var before, last := items[..|items| - 1], items[|items| - 1];
      EntriesAreScorable(before);
      assert last in items;
      hide Merge, Scorable;
      if last.cveId in Collect(before).byId {
        MergingNeverLowersTheScore(Collect(before).byId[last.cveId], last, _ => None);
      }
    }
  }
}
