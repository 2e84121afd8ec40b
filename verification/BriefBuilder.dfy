/** _build_action_queue and _build_epss_movers as the program runs them (backend/brief/service.py). */
module BriefBuilder {
  import opened Options
  import opened Ranking
  import opened ActionQueue

  // ---------------------------------------------------------------- items as the sections hold them

  /** The loop over the entries of the second dictionary, in any order. */
  method FillIn(a: map<string, Value>, b: map<string, Value>) returns (filled: map<string, Value>)
    ensures filled == FillBlanks(a, b)
  {
    filled := a;
    var rest := b.Keys;
    FillNothing(a, b);
    hide FillBlanks, Blank;
    while rest != {}
      invariant rest <= b.Keys
      invariant filled == FillBlanks(a, b - rest)
      decreases |rest|
    {
      var k :| k in rest;
      FillStep(a, b, rest, k);
      if Blank(Get(filled, k)) {
        filled := filled[k := b[k]];
      }
      rest := rest - {k};
    }
    assert b - {} == b;
  }

  lemma FillNothing(a: map<string, Value>, b: map<string, Value>)
    ensures FillBlanks(a, b - b.Keys) == a
  {
  }

  lemma FillStep(a: map<string, Value>, b: map<string, Value>, rest: set<string>, k: string)
    requires k in rest && rest <= b.Keys
    ensures var before := FillBlanks(a, b - rest);
            Get(before, k) == Get(a, k) &&
            FillBlanks(a, b - (rest - {k})) == if Blank(Get(a, k)) then before[k := b[k]] else before
  {
    assert Blank(Null);
    hide Blank;
    var before, after := FillBlanks(a, b - rest), FillBlanks(a, b - (rest - {k}));
    assert (b - (rest - {k})).Keys == (b - rest).Keys + {k};
    assert after.Keys == before.Keys + {k};
    assert forall x | x in before && x != k :: after[x] == before[x];
  }

  class Item {
    const cveId: string
    var fields: map<string, Value>
    var reasons: seq<string>

    /** A copy: {**item, "reasons": list(item["reasons"])}. */
    constructor (cveId: string, fields: map<string, Value>, reasons: seq<string>)
      ensures Model() == ItemValue(cveId, fields, reasons)
    {
      this.cveId, this.fields, this.reasons := cveId, fields, reasons;
    }

    function Model(): ItemValue
      reads this
    {
      ItemValue(cveId, fields, reasons)
    }

    function Field(key: string): Value
      reads this
    {
      Get(fields, key)
    }

    /** The body of the merge: the reasons without duplicates, and a value for every blank field. */
    method MergeIn(item: Item)
      requires item != this
      modifies this
      ensures Model() == Merge(old(Model()), item.Model())
    {
      reasons := Dedup(reasons + item.reasons);
      fields := FillIn(fields, item.fields);
    }

    /** _priority_score. */
    method Priority(daysLeft: DaysLeft) returns (score: real)
      ensures score == PriorityScore(Model(), daysLeft)
    {
      score := 0.0;
      if "kev_due_soon" in reasons {
        score := score + 100.0;
        var due := Field("kev_due_date");
        if due.Text? && due.text != "" {
          match daysLeft(due.text)
          case Some(days) => score := score + (if 14 - days > 0 then 14 - days else 0) as real;
          case None =>
        }
      }
      if "new_kev" in reasons {
        score := score + 90.0;
      }
      if "epss_mover" in reasons {
        score := score + 70.0 + NumberOr(Field("epss_delta"), 0.0) * 100.0;
      }
      if "stack_match" in reasons {
        score := score + 60.0;
        if Truthy(Field("is_kev")) {
          score := score + 15.0;
        }
        var epss := Field("epss_score");
        if epss.Number? {
          score := score + epss.number * 20.0;
        }
      }
    }
  }

  datatype Section = Section(key: string, items: seq<Item>)

  ghost function Models(items: seq<Item>): (models: seq<ItemValue>)
    reads items
  {
    if items == [] then [] else Models(items[..|items| - 1]) + [items[|items| - 1].Model()]
  }

  function Objects(sections: seq<Section>): set<Item> {
    set s, x | s in sections && x in s.items :: x
  }

  lemma CollectStep(before: seq<ItemValue>, items: seq<ItemValue>, j: nat)
    requires j < |items|
    ensures Collect(before + items[..j + 1]) == Add(Collect(before + items[..j]), items[j])
  {
    var next := before + items[..j + 1];
    assert next == before + items[..j] + [items[j]];
    assert next[..|next| - 1] == before + items[..j];
  }

  // ---------------------------------------------------------------- the queue

  /** The dictionary of objects, all of them in repr, stands for the dictionary of values. */
  ghost predicate Mirrors(order: seq<string>, byId: map<string, Item>, repr: set<Item>, q: Queue)
    reads repr
  {
    && order == q.order && Keyed(q) && byId.Keys == q.byId.Keys
    && forall id | id in byId :: byId[id] in repr && byId[id].Model() == q.byId[id]
  }

  ghost predicate Tracks(xs: seq<Scored<Item>>, ys: seq<Scored<ItemValue>>)
    reads set x | x in xs :: x.item
  {
    |xs| == |ys| && forall i | 0 <= i < |xs| :: xs[i].score == ys[i].score && xs[i].item.Model() == ys[i].item
  }

  lemma {:induction false} InsertTracks(x: Scored<Item>, y: Scored<ItemValue>,
                                        xs: seq<Scored<Item>>, ys: seq<Scored<ItemValue>>)
    requires Tracks(xs, ys) && x.score == y.score && x.item.Model() == y.item
    ensures Tracks(InsertDesc(x, xs), InsertDesc(y, ys))
  {
    if xs != [] && x.score < xs[0].score {
      InsertTracks(x, y, xs[1..], ys[1..]);
    }
  }

  lemma {:induction false} SortTracks(xs: seq<Scored<Item>>, ys: seq<Scored<ItemValue>>)
    requires Tracks(xs, ys)
    ensures Tracks(SortDesc(xs), SortDesc(ys))
  {
    if xs != [] {
      SortTracks(xs[1..], ys[1..]);
      InsertTracks(xs[0], ys[0], SortDesc(xs[1..]), SortDesc(ys[1..]));
    }
  }

  lemma {:induction false} ModelsAre(items: seq<Item>)
    ensures |Models(items)| == |items| && forall i | 0 <= i < |items| :: Models(items)[i] == items[i].Model()
  {
    if items != [] {
      ModelsAre(items[..|items| - 1]);
    }
  }

  /** One item: merged into the entry of its CVE, or copied into a new one. */
  method AddItem(order: seq<string>, byId: map<string, Item>, item: Item, ghost repr: set<Item>, ghost q: Queue)
    returns (order': seq<string>, byId': map<string, Item>, ghost repr': set<Item>)
    requires Mirrors(order, byId, repr, q) && item !in repr
    modifies repr
    ensures Mirrors(order', byId', repr', Add(q, old(item.Model())))
    ensures fresh(repr' - repr)
  {
    hide Merge;
    order', byId', repr' := order, byId, repr;
    if item.cveId in byId {
      var existing := byId[item.cveId];
      assert forall id | id in byId && byId[id] == existing :: id == existing.cveId;
      existing.MergeIn(item);
    } else {
      var copy := new Item(item.cveId, item.fields, item.reasons);
      order', byId', repr' := order + [item.cveId], byId[item.cveId := copy], repr + {copy};
    }
  }

  /** The items of one section. */
  method AddSection(order: seq<string>, byId: map<string, Item>, items: seq<Item>,
                    ghost repr: set<Item>, ghost before: seq<ItemValue>)
    returns (order': seq<string>, byId': map<string, Item>, ghost repr': set<Item>)
    requires Mirrors(order, byId, repr, Collect(before)) && forall x | x in items :: x !in repr
    modifies repr
    ensures Mirrors(order', byId', repr', Collect(before + old(Models(items))))
    ensures fresh(repr' - repr)
  {
    order', byId', repr' := order, byId, repr;
    ghost var was := Models(items);
    ModelsAre(items);
    assert before + was[..0] == before;
    hide Collect, Add, Mirrors, Models;
    for j := 0 to |items|
      invariant Mirrors(order', byId', repr', Collect(before + was[..j]))
      invariant fresh(repr' - repr)
      invariant forall k | 0 <= k < |items| :: items[k].Model() == was[k]
    {
      CollectStep(before, was, j);
      assert forall x | x in items :: x !in repr';
      assert items[j] in items;
      order', byId', repr' := AddItem(order', byId', items[j], repr', Collect(before + was[..j]));
    }
    assert was[..|items|] == was;
  }

  /** What the objects of the sections hold, section by section, as values. */
  datatype SectionValue = SectionValue(key: string, items: seq<ItemValue>)

  ghost function Snapshot(sections: seq<Section>): (values: seq<SectionValue>)
    reads Objects(sections)
    ensures |values| == |sections|
    ensures forall i | 0 <= i < |sections| :: (forall x | x in sections[i].items :: x in Objects(sections)) &&
              values[i] == SectionValue(sections[i].key, Models(sections[i].items))
  {
    Members(sections);
    seq(|sections|, i requires 0 <= i < |sections| reads Objects(sections) =>
      assert forall x | x in sections[i].items :: x in Objects(sections);
      SectionValue(sections[i].key, Models(sections[i].items)))
  }

  lemma Members(sections: seq<Section>)
    ensures forall i | 0 <= i < |sections| :: forall x | x in sections[i].items :: x in Objects(sections)
  {
  }

  /** The items before a section, and those of the section unless it holds campaigns. */
  function WithSection(before: seq<ItemValue>, section: SectionValue): seq<ItemValue> {
    if section.key == "active_campaigns" then before else before + section.items
  }

  /** The items that the queue is built from: those of every section but the campaigns. */
  function Queued(sections: seq<SectionValue>): seq<ItemValue> {
    if sections == [] then []
    else WithSection(Queued(sections[..|sections| - 1]), sections[|sections| - 1])
  }

  lemma QueuedStep(sections: seq<SectionValue>, i: nat)
    requires i < |sections|
    ensures Queued(sections[..i + 1]) == WithSection(Queued(sections[..i]), sections[i])
  {
    assert sections[..i + 1][..i] == sections[..i];
  }

  /** The body of the loop over the sections. */
  method VisitSection(order: seq<string>, byId: map<string, Item>, section: Section,
                      ghost repr: set<Item>, ghost before: seq<ItemValue>)
    returns (order': seq<string>, byId': map<string, Item>, ghost repr': set<Item>)
    requires Mirrors(order, byId, repr, Collect(before)) && forall x | x in section.items :: x !in repr
    modifies repr
    ensures var values := SectionValue(section.key, old(Models(section.items)));
            Mirrors(order', byId', repr', Collect(WithSection(before, values)))
    ensures fresh(repr' - repr)
  {
    order', byId', repr' := order, byId, repr;
    if section.key != "active_campaigns" {
      order', byId', repr' := AddSection(order, byId, section.items, repr, before);
    }
  }

  /** The loop over the sections: every CVE's entry is a copy that belongs to the queue alone. */
  method CollectItems(sections: seq<Section>)
    returns (order: seq<string>, byId: map<string, Item>, ghost repr: set<Item>)
    ensures Mirrors(order, byId, repr, Collect(Queued(old(Snapshot(sections)))))
    ensures fresh(repr)
  {
    order, byId, repr := [], map[], {};
    ghost var values := Snapshot(sections);
    Members(sections);
    assert Mirrors(order, byId, repr, Collect(Queued(values[..0])));
    hide Collect, Mirrors, Models, Queued, Objects, WithSection, Snapshot;
    for i := 0 to |sections|
      invariant Mirrors(order, byId, repr, Collect(Queued(values[..i])))
      invariant fresh(repr)
      invariant Snapshot(sections) == values
    {
      QueuedStep(values, i);
      order, byId, repr := VisitSection(order, byId, sections[i], repr, Queued(values[..i]));
    }
    assert values[..|sections|] == values;
  }

  lemma TopMembers<T>(xs: seq<Scored<T>>, limit: nat)
    ensures forall x | x in Top(xs, limit) :: x in xs
  {
    SortDescSorts(xs);
    hide SortDesc;
    forall x | x in Top(xs, limit) ensures x in xs {
      assert x in multiset(SortDesc(xs));
    }
  }

  lemma TopTracks(xs: seq<Scored<Item>>, ys: seq<Scored<ItemValue>>, limit: nat)
    requires Tracks(xs, ys)
    ensures Models(Items(Top(xs, limit))) == Items(Top(ys, limit))
    ensures forall x | x in Items(Top(xs, limit)) :: exists s :: s in xs && s.item == x
  {
    SortTracks(xs, ys);
    TopMembers(xs, limit);
    ItemsAre(Top(xs, limit));
    ItemsAre(Top(ys, limit));
    ModelsAre(Items(Top(xs, limit)));
    hide SortDesc;
    forall x | x in Items(Top(xs, limit)) ensures exists s :: s in xs && s.item == x {
      var i :| 0 <= i < |Items(Top(xs, limit))| && Items(Top(xs, limit))[i] == x;
      assert Top(xs, limit)[i] in Top(xs, limit);
    }
  }

  /** Each item with its score. */
  method Decorate(items: seq<Item>, daysLeft: DaysLeft) returns (scored: seq<Scored<Item>>)
    ensures |scored| == |items|
    ensures forall k | 0 <= k < |items| :: scored[k] == Scored(PriorityScore(items[k].Model(), daysLeft), items[k])
  {
    hide PriorityScore;
    scored := [];
    for i := 0 to |items|
      invariant |scored| == i
      invariant forall k | 0 <= k < i :: scored[k] == Scored(PriorityScore(items[k].Model(), daysLeft), items[k])
    {
      var score := items[i].Priority(daysLeft);
      scored := scored + [Scored(score, items[i])];
    }
  }

  /** sorted(entries, key=_priority_score, reverse=True)[:limit]. */
  method Rank(entries: seq<Item>, limit: nat, daysLeft: DaysLeft) returns (queue: seq<Item>)
    ensures Models(queue) == Items(Top(Score(Models(entries), daysLeft), limit))
    ensures forall x | x in queue :: x in entries
  {
    var scored := Decorate(entries, daysLeft);
    ModelsAre(entries);
    ScoreIs(Models(entries), daysLeft);
    hide Models, Score, PriorityScore;
    TopTracks(scored, Score(Models(entries), daysLeft), limit);
    queue := Items(Top(scored, limit));
  }

  /** The values of the dictionary, in insertion order. */
  method EntriesOf(order: seq<string>, byId: map<string, Item>, ghost repr: set<Item>, ghost q: Queue)
    returns (entries: seq<Item>)
    requires Mirrors(order, byId, repr, q)
    ensures Models(entries) == Values(q, q.order)
    ensures forall x | x in entries :: x in repr
  {
    ValuesAre(q, q.order);
    assert forall i | 0 <= i < |order| :: order[i] in q.order;
    entries := seq(|order|, i requires 0 <= i < |order| => byId[order[i]]);
    ModelsAre(entries);
  }

  /**
   _build_action_queue.  It modifies no item of the sections, and the items that it returns are
   new: assigning to their entries later leaves those of the sections alone.  The copies are shallow,
   so a list inside an entry is still shared; values in the model cannot be changed in place.
   */
  method BuildActionQueue(sections: seq<Section>, limit: nat, daysLeft: DaysLeft) returns (queue: seq<Item>)
    ensures Models(queue) == ActionQueueOf(Queued(old(Snapshot(sections))), limit, daysLeft)
    ensures Snapshot(sections) == old(Snapshot(sections))
    ensures forall x | x in queue :: fresh(x)
  {
    var order, byId, repr := CollectItems(sections);
    ghost var q := Collect(Queued(old(Snapshot(sections))));
    hide Collect, Queued, Values, Score, Models, Snapshot;
    var entries := EntriesOf(order, byId, repr, q);
    queue := Rank(entries, limit, daysLeft);
  }
}
