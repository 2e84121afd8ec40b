/** sorted(xs, key=score, reverse=True)[:limit], and duplicate-free lists in first-seen order. */
module Ranking {

  datatype Scored<T> = Scored(score: real, item: T)

  function InsertDesc<T>(x: Scored<T>, xs: seq<Scored<T>>): seq<Scored<T>> {
    if xs == [] || x.score >= xs[0].score then [x] + xs else [xs[0]] + InsertDesc(x, xs[1..])
  }

  /** Highest score first; equal scores keep their order. */
  function SortDesc<T>(xs: seq<Scored<T>>): seq<Scored<T>> {
    if xs == [] then [] else InsertDesc(xs[0], SortDesc(xs[1..]))
  }

  function Take<T>(xs: seq<T>, limit: nat): seq<T> {
    if |xs| <= limit then xs else xs[..limit]
  }

  function Top<T>(xs: seq<Scored<T>>, limit: nat): seq<Scored<T>> {
    Take(SortDesc(xs), limit)
  }

  predicate Descending<T>(xs: seq<Scored<T>>) {
    forall i, j | 0 <= i < j < |xs| :: xs[i].score >= xs[j].score
  }

  /** The elements of one score, in order. */
  function AtScore<T>(xs: seq<Scored<T>>, score: real): seq<Scored<T>> {
    if xs == [] then [] else (if xs[0].score == score then [xs[0]] else []) + AtScore(xs[1..], score)
  }

  lemma DescendingCons<T>(x: Scored<T>, xs: seq<Scored<T>>)
    ensures Descending([x] + xs) <==> Descending(xs) && forall y | y in xs :: x.score >= y.score
  {
    var all := [x] + xs;
    if Descending(all) {
      assert forall i | 0 <= i < |xs| :: all[i + 1] == xs[i];
      assert all[0] == x;
    }
  }

  lemma MultisetCons<T>(x: T, xs: seq<T>)
    ensures multiset([x] + xs) == multiset{x} + multiset(xs)
  {
  }

  lemma InsertedBelow<T>(head: Scored<T>, x: Scored<T>, rest: seq<Scored<T>>, inserted: seq<Scored<T>>)
    requires multiset(inserted) == multiset{x} + multiset(rest)
    requires head.score >= x.score && forall y | y in rest :: head.score >= y.score
    ensures forall y | y in inserted :: head.score >= y.score
  {
    forall y | y in inserted ensures head.score >= y.score {
      assert y in multiset(inserted);
    }
  }

  lemma {:induction false} InsertDescSorts<T>(x: Scored<T>, xs: seq<Scored<T>>)
    requires Descending(xs)
    ensures Descending(InsertDesc(x, xs))
    ensures multiset(InsertDesc(x, xs)) == multiset{x} + multiset(xs)
  {
    assert InsertDesc(x, []) == [x] && Descending([x]);
    hide Descending;
    if xs != [] {
      var head, rest := xs[0], xs[1..];
      assert xs == [head] + rest;
      DescendingCons(head, rest);
      MultisetCons(head, rest);
      if x.score >= head.score {
        assert forall y | y in rest :: x.score >= y.score;
        DescendingCons(x, xs);
        MultisetCons(x, xs);
      } else {
        InsertDescSorts(x, rest);
        var inserted := InsertDesc(x, rest);
        assert InsertDesc(x, xs) == [head] + inserted;
        hide InsertDesc;
        InsertedBelow(head, x, rest, inserted);
        DescendingCons(head, inserted);
        MultisetCons(head, inserted);
      }
    }
  }

  lemma AtScoreHead<T>(x: Scored<T>, xs: seq<Scored<T>>, score: real)
    ensures AtScore([x] + xs, score) == (if x.score == score then [x] else []) + AtScore(xs, score)
  {
    assert ([x] + xs)[1..] == xs;
  }

  lemma {:induction false} InsertDescIsStable<T>(x: Scored<T>, xs: seq<Scored<T>>, score: real)
    ensures AtScore(InsertDesc(x, xs), score) == AtScore([x] + xs, score)
  {
    if xs != [] && x.score < xs[0].score {
      var head, rest := xs[0], xs[1..];
      assert xs == [head] + rest;
      assert InsertDesc(x, xs) == [head] + InsertDesc(x, rest);
      InsertDescIsStable(x, rest, score);
      AtScoreHead(head, InsertDesc(x, rest), score);
      AtScoreHead(x, rest, score);
      AtScoreHead(x, xs, score);
      AtScoreHead(head, rest, score);
      hide AtScore, InsertDesc;
      assert x.score != score || head.score != score;
    }
  }

  /** Sorting is a stable permutation into descending order. */
  lemma {:induction false} SortDescSorts<T>(xs: seq<Scored<T>>)
    ensures Descending(SortDesc(xs))
    ensures multiset(SortDesc(xs)) == multiset(xs)
    ensures forall score :: AtScore(SortDesc(xs), score) == AtScore(xs, score)
  {
    if xs != [] {
      var rest := SortDesc(xs[1..]);
      SortDescSorts(xs[1..]);
      InsertDescSorts(xs[0], rest);
      assert xs == [xs[0]] + xs[1..];
      forall score ensures AtScore(SortDesc(xs), score) == AtScore(xs, score) {
        InsertDescIsStable(xs[0], rest, score);
        AtScoreHead(xs[0], rest, score);
      }
    }
  }

  lemma SplitDescending<T>(a: seq<Scored<T>>, b: seq<Scored<T>>)
    requires Descending(a + b)
    ensures Descending(a)
    ensures forall x, y | x in a && y in b :: x.score >= y.score
  {
    var all := a + b;
    forall i, j | 0 <= i < j < |a| ensures a[i].score >= a[j].score {
      assert all[i] == a[i] && all[j] == a[j];
    }
    forall x, y | x in a && y in b ensures x.score >= y.score {
      var i :| 0 <= i < |a| && a[i] == x;
      var j :| 0 <= j < |b| && b[j] == y;
      assert all[i] == x && all[|a| + j] == y;
    }
  }

  /** What is left out never scores above what is kept. */
  lemma TopIsBest<T>(xs: seq<Scored<T>>, limit: nat) returns (omitted: seq<Scored<T>>)
    ensures multiset(Top(xs, limit)) + multiset(omitted) == multiset(xs)
    ensures |Top(xs, limit)| == if |xs| <= limit then |xs| else limit
    ensures Descending(Top(xs, limit))
    ensures forall x, y | x in Top(xs, limit) && y in omitted :: x.score >= y.score
  {
    var all := SortDesc(xs);
    SortDescSorts(xs);
    assert |multiset(all)| == |all| && |multiset(xs)| == |xs|;
    hide SortDesc, AtScore;
    var top := Top(xs, limit);
    omitted := if |all| <= limit then [] else all[limit..];
    assert all == top + omitted;
    SplitDescending(top, omitted);
  }

  // ---------------------------------------------------------------- first-seen order

  ghost predicate NoDup<T>(xs: seq<T>) {
    forall i, j | 0 <= i < j < |xs| :: xs[i] != xs[j]
  }

  /** list(dict.fromkeys(xs)). */
  function Dedup<T(==)>(xs: seq<T>): seq<T> {
    if xs == [] then []
    else
      var before, last := Dedup(xs[..|xs| - 1]), xs[|xs| - 1];
      if last in before then before else before + [last]
  }

  lemma {:induction false} DedupOf<T>(xs: seq<T>)
    ensures NoDup(Dedup(xs))
    ensures forall x :: x in Dedup(xs) <==> x in xs
  {
    if xs != [] {
      DedupOf(xs[..|xs| - 1]);
      assert xs == xs[..|xs| - 1] + [xs[|xs| - 1]];
    }
  }

  lemma {:induction false} DedupOfDistinct<T>(xs: seq<T>)
    ensures NoDup(xs) <==> Dedup(xs) == xs
  {
    DedupOf(xs);
    if xs != [] {
      var before, last := xs[..|xs| - 1], xs[|xs| - 1];
      DedupOfDistinct(before);
      DedupOf(before);
      assert xs == before + [last];
      if NoDup(xs) {
        assert NoDup(before);
        assert last !in before;
      }
    }
  }

  /** Removing duplicates early makes no difference. */
  lemma {:induction false} DedupAbsorbs<T>(xs: seq<T>, ys: seq<T>)
    ensures Dedup(Dedup(xs) + ys) == Dedup(xs + ys)
  {
    if ys == [] {
      DedupOf(xs);
      DedupOfDistinct(Dedup(xs));
      assert Dedup(xs) + ys == Dedup(xs) && xs + ys == xs;
    } else {
      var before, last := ys[..|ys| - 1], ys[|ys| - 1];
      DedupAbsorbs(xs, before);
      assert (xs + ys)[..|xs + ys| - 1] == xs + before;
      var zs := Dedup(xs) + ys;
      assert zs[..|zs| - 1] == Dedup(xs) + before;
    }
  }

  /** The order is that of the first occurrences: what comes later only adds to the end. */
  lemma {:induction false} DedupExtends<T>(xs: seq<T>, ys: seq<T>)
    ensures Dedup(xs) <= Dedup(xs + ys)
  {
    if ys == [] {
      assert xs + ys == xs;
    } else {
      DedupExtends(xs, ys[..|ys| - 1]);
      assert (xs + ys)[..|xs + ys| - 1] == xs + ys[..|ys| - 1];
    }
  }

  // ---------------------------------------------------------------- ties

  /** x stands somewhere before y. */
  ghost predicate Before<T>(xs: seq<T>, x: T, y: T) {
    exists i, j :: 0 <= i < j < |xs| && xs[i] == x && xs[j] == y
  }

  lemma BeforeCons<T>(head: T, xs: seq<T>, x: T, y: T)
    ensures Before([head] + xs, x, y) <==> (head == x && y in xs) || Before(xs, x, y)
  {
    var all := [head] + xs;
    if i, j :| 0 <= i < j < |all| && all[i] == x && all[j] == y {
      assert xs[j - 1] == y;
      if i > 0 {
        assert xs[i - 1] == x;
      }
    }
    if head == x && y in xs {
      var j :| 0 <= j < |xs| && xs[j] == y;
      assert all[0] == x && all[j + 1] == y;
    }
    if i, j :| 0 <= i < j < |xs| && xs[i] == x && xs[j] == y {
      assert all[i + 1] == x && all[j + 1] == y;
    }
  }

  lemma {:induction false} AtScoreKeepsOrder<T>(xs: seq<Scored<T>>, x: Scored<T>, y: Scored<T>)
    requires x.score == y.score
    ensures y in AtScore(xs, x.score) <==> y in xs
    ensures Before(AtScore(xs, x.score), x, y) <==> Before(xs, x, y)
  {
    hide Before;
    if xs == [] {
      assert xs == AtScore(xs, x.score);
    } else {
      var head, rest := xs[0], xs[1..];
      AtScoreKeepsOrder(rest, x, y);
      assert xs == [head] + rest;
      BeforeCons(head, rest, x, y);
      BeforeCons(head, AtScore(rest, x.score), x, y);
      assert AtScore(xs, x.score) ==
             if head.score == x.score then [head] + AtScore(rest, x.score) else AtScore(rest, x.score);
    }
  }

  /** Among equal scores the order of the list is that of the ranking. */
  lemma TiesKeepOrder<T>(xs: seq<Scored<T>>, limit: nat, i: nat, j: nat)
    requires i < j < |Top(xs, limit)| && Top(xs, limit)[i].score == Top(xs, limit)[j].score
    ensures Before(xs, Top(xs, limit)[i], Top(xs, limit)[j])
  {
    var sorted := SortDesc(xs);
    SortDescSorts(xs);
    var x, y := Top(xs, limit)[i], Top(xs, limit)[j];
    assert sorted[i] == x && sorted[j] == y;
    assert Before(sorted, x, y);
    hide SortDesc, Before, AtScore;
    AtScoreKeepsOrder(sorted, x, y);
    AtScoreKeepsOrder(xs, x, y);
  }
}
