/** Lexicographic order, stable sorting by a key, and what a permutation of the input changes. */
module Ordering {

  // ---------------------------------------------------------------- orders

  ghost predicate TotalOrder<T(!new)>(le: (T, T) -> bool) {
    && (forall x :: le(x, x))
    && (forall x, y :: le(x, y) && le(y, x) ==> x == y)
    && (forall x, y, z :: le(x, y) && le(y, z) ==> le(x, z))
    && (forall x, y :: le(x, y) || le(y, x))
  }

  predicate LexLe<T(==)>(a: seq<T>, b: seq<T>, le: (T, T) -> bool) {
    a == [] ||
    (b != [] && if a[0] == b[0] then LexLe(a[1..], b[1..], le) else le(a[0], b[0]))
  }

  predicate CharLe(c: char, d: char) {
    c <= d
  }

  /** Python's order on strings: by code point. */
  predicate StrLe(a: string, b: string) {
    LexLe(a, b, CharLe)
  }

  type Key = seq<string>

  /** Python's order on tuples of strings. */
  predicate KeyLe(a: Key, b: Key) {
    LexLe(a, b, StrLe)
  }

  lemma {:induction false} LexAntisymmetric<T(!new)>(a: seq<T>, b: seq<T>, le: (T, T) -> bool)
    requires TotalOrder(le) && LexLe(a, b, le) && LexLe(b, a, le)
    ensures a == b
    decreases |a|
  {
    if a != [] {
      LexAntisymmetric(a[1..], b[1..], le);
      assert a == [a[0]] + a[1..] && b == [b[0]] + b[1..];
    }
  }

  lemma {:induction false} LexTransitive<T(!new)>(a: seq<T>, b: seq<T>, c: seq<T>, le: (T, T) -> bool)
    requires TotalOrder(le) && LexLe(a, b, le) && LexLe(b, c, le)
    ensures LexLe(a, c, le)
    decreases |a|
  {
    if a != [] && a[0] == b[0] && b[0] == c[0] {
      LexTransitive(a[1..], b[1..], c[1..], le);
    }
  }

  lemma {:induction false} LexConnected<T(!new)>(a: seq<T>, b: seq<T>, le: (T, T) -> bool)
    requires TotalOrder(le)
    ensures LexLe(a, b, le) || LexLe(b, a, le)
    ensures LexLe(a, a, le)
    decreases |a|
  {
    if a != [] {
      LexConnected(a[1..], if b == [] then [] else b[1..], le);
    }
  }

  /** a comes before b at the first place where they differ. */
  ghost predicate FirstDifference<T(!new)>(a: seq<T>, b: seq<T>, i: nat, le: (T, T) -> bool) {
    && i < |a| && i < |b| && a[i] != b[i] && le(a[i], b[i])
    && forall k | 0 <= k < i :: a[k] == b[k]
  }

  lemma DifferenceInTail<T(!new)>(a: seq<T>, b: seq<T>, i: nat, le: (T, T) -> bool)
    requires a != [] && b != [] && a[0] == b[0]
    ensures FirstDifference(a, b, i + 1, le) <==> FirstDifference(a[1..], b[1..], i, le)
    ensures !FirstDifference(a, b, 0, le)
  {
    assert forall k | 0 <= k < i && i < |a| - 1 :: a[1..][k] == a[k + 1];
    assert forall k | 0 <= k < i && i < |b| - 1 :: b[1..][k] == b[k + 1];
    if FirstDifference(a[1..], b[1..], i, le) {
      forall k | 0 <= k < i + 1 ensures a[k] == b[k] {
        if k > 0 {
          assert a[1..][k - 1] == b[1..][k - 1];
        }
      }
    }
  }

  lemma DifferencesInTail<T(!new)>(a: seq<T>, b: seq<T>, le: (T, T) -> bool)
    requires a != [] && b != [] && a[0] == b[0]
    ensures (exists i: nat :: FirstDifference(a, b, i, le)) <==> exists i: nat :: FirstDifference(a[1..], b[1..], i, le)
  {
    hide FirstDifference;
    if i: nat :| FirstDifference(a, b, i, le) {
      DifferenceInTail(a, b, 0, le);
      DifferenceInTail(a, b, i - 1, le);
    }
    if i: nat :| FirstDifference(a[1..], b[1..], i, le) {
      DifferenceInTail(a, b, i, le);
    }
  }

  /** The lexicographic order: a prefix comes first, and otherwise the first difference decides. */
  lemma {:induction false} LexLeIff<T(!new)>(a: seq<T>, b: seq<T>, le: (T, T) -> bool)
    ensures LexLe(a, b, le) <==> a <= b || exists i: nat :: FirstDifference(a, b, i, le)
    decreases |a|
  {
    hide FirstDifference;
    if a == [] || b == [] {
      NoDifference(a, b, le);
    } else if a[0] == b[0] {
      LexLeIff(a[1..], b[1..], le);
      assert a == [a[0]] + a[1..] && b == [b[0]] + b[1..];
      assert a <= b <==> a[1..] <= b[1..];
      DifferencesInTail(a, b, le);
    } else {
      DifferenceAtHead(a, b, le);
    }
  }

  lemma NoDifference<T(!new)>(a: seq<T>, b: seq<T>, le: (T, T) -> bool)
    requires a == [] || b == []
    ensures forall i: nat :: !FirstDifference(a, b, i, le)
  {
  }

  lemma DifferenceAtHead<T(!new)>(a: seq<T>, b: seq<T>, le: (T, T) -> bool)
    requires a != [] && b != [] && a[0] != b[0]
    ensures (exists i: nat :: FirstDifference(a, b, i, le)) <==> le(a[0], b[0])
    ensures !(a <= b)
  {
    if le(a[0], b[0]) {
      assert FirstDifference(a, b, 0, le);
    }
  }

  /** The order of strings: a prefix comes first, and otherwise the lower code point where they first differ. */
  lemma StrLeIff(a: string, b: string)
    ensures StrLe(a, b) <==>
            a <= b || exists i: nat :: i < |a| && i < |b| && a[i] < b[i] && forall k | 0 <= k < i :: a[k] == b[k]
  {
    LexLeIff(a, b, CharLe);
    if i: nat :| i < |a| && i < |b| && a[i] < b[i] && forall k | 0 <= k < i :: a[k] == b[k] {
      assert FirstDifference(a, b, i, CharLe);
    }
    if i: nat :| FirstDifference(a, b, i, CharLe) {
      assert a[i] < b[i];
    }
  }

  lemma StrOrder()
    ensures TotalOrder(StrLe)
  {
    assert TotalOrder(CharLe);
    forall x: string, y: string, z: string
      ensures StrLe(x, x) && (StrLe(x, y) || StrLe(y, x))
      ensures StrLe(x, y) && StrLe(y, x) ==> x == y
      ensures StrLe(x, y) && StrLe(y, z) ==> StrLe(x, z)
    {
      LexConnected(x, y, CharLe);
      if StrLe(x, y) && StrLe(y, x) {
        LexAntisymmetric(x, y, CharLe);
      }
      if StrLe(x, y) && StrLe(y, z) {
        LexTransitive(x, y, z, CharLe);
      }
    }
  }

  lemma KeyOrder()
    ensures TotalOrder(KeyLe)
  {
    StrOrder();
    forall x: Key, y: Key, z: Key
      ensures KeyLe(x, x) && (KeyLe(x, y) || KeyLe(y, x))
      ensures KeyLe(x, y) && KeyLe(y, x) ==> x == y
      ensures KeyLe(x, y) && KeyLe(y, z) ==> KeyLe(x, z)
    {
      LexConnected(x, y, StrLe);
      if KeyLe(x, y) && KeyLe(y, x) {
        LexAntisymmetric(x, y, StrLe);
      }
      if KeyLe(x, y) && KeyLe(y, z) {
        LexTransitive(x, y, z, StrLe);
      }
    }
  }

  // ---------------------------------------------------------------- stable sorting

  function Insert<T>(x: T, xs: seq<T>, key: T -> Key): seq<T> {
    if xs == [] || KeyLe(key(x), key(xs[0])) then [x] + xs
    else [xs[0]] + Insert(x, xs[1..], key)
  }

  /** sorted(xs, key=key): elements with equal keys keep their order. */
  function SortBy<T>(xs: seq<T>, key: T -> Key): seq<T> {
    if xs == [] then [] else Insert(xs[0], SortBy(xs[1..], key), key)
  }

  ghost predicate Sorted<T>(xs: seq<T>, key: T -> Key) {
    forall i, j | 0 <= i < j < |xs| :: KeyLe(key(xs[i]), key(xs[j]))
  }

  /** The elements with the given key, in order. */
  function Class<T>(xs: seq<T>, key: T -> Key, k: Key): seq<T> {
    if xs == [] then []
    else (if key(xs[0]) == k then [xs[0]] else []) + Class(xs[1..], key, k)
  }

  lemma ConcatAssoc<T>(a: seq<T>, b: seq<T>, c: seq<T>)
    ensures (a + b) + c == a + (b + c)
  {
  }

  lemma {:induction false} ClassSplits<T>(a: seq<T>, b: seq<T>, key: T -> Key, k: Key)
    ensures Class(a + b, key, k) == Class(a, key, k) + Class(b, key, k)
  {
    if a == [] {
      assert a + b == b;
    } else {
      ClassSplits(a[1..], b, key, k);
      assert (a + b)[1..] == a[1..] + b && (a + b)[0] == a[0];
      ConcatAssoc(if key(a[0]) == k then [a[0]] else [], Class(a[1..], key, k), Class(b, key, k));
    }
  }

  lemma {:induction false} InsertPermutes<T>(x: T, xs: seq<T>, key: T -> Key)
    ensures multiset(Insert(x, xs, key)) == multiset{x} + multiset(xs)
  {
    if xs != [] {
      InsertPermutes(x, xs[1..], key);
      assert xs == [xs[0]] + xs[1..];
    }
  }

  lemma {:induction false} InsertSorts<T>(x: T, xs: seq<T>, key: T -> Key)
    requires Sorted(xs, key)
    ensures Sorted(Insert(x, xs, key), key)
  {
    KeyOrder();
    hide KeyLe;
    if xs != [] && !KeyLe(key(x), key(xs[0])) {
      var rest := Insert(x, xs[1..], key);
      InsertSorts(x, xs[1..], key);
      InsertPermutes(x, xs[1..], key);
      forall j | 0 <= j < |rest| ensures KeyLe(key(xs[0]), key(rest[j])) {
        assert rest[j] in multiset(rest);
        if rest[j] != x {
          assert rest[j] in xs[1..];
        }
      }
    }
  }

  lemma ClassHead<T>(xs: seq<T>, key: T -> Key, k: Key)
    requires xs != []
    ensures key(xs[0]) == k ==> Class(xs, key, k) == [xs[0]] + Class(xs[1..], key, k)
    ensures key(xs[0]) != k ==> Class(xs, key, k) == Class(xs[1..], key, k)
  {
  }

  lemma {:induction false} InsertKeepsClass<T>(x: T, xs: seq<T>, key: T -> Key, k: Key)
    requires Sorted(xs, key)
    ensures Class(Insert(x, xs, key), key, k) == (if key(x) == k then [x] else []) + Class(xs, key, k)
  {
    KeyOrder();
    hide KeyLe;
    if xs == [] || KeyLe(key(x), key(xs[0])) {
      assert ([x] + xs)[1..] == xs;
    } else {
      InsertKeepsClass(x, xs[1..], key, k);
      assert key(x) != key(xs[0]);
      ClassHead(xs, key, k);
      ClassHead(Insert(x, xs, key), key, k);
      assert Insert(x, xs, key)[1..] == Insert(x, xs[1..], key);
    }
  }

  /** Sorting is a permutation in order, and stable: it keeps the order within every key. */
  lemma {:induction false} SortBySorts<T>(xs: seq<T>, key: T -> Key)
    ensures Sorted(SortBy(xs, key), key)
    ensures multiset(SortBy(xs, key)) == multiset(xs)
    ensures forall k :: Class(SortBy(xs, key), key, k) == Class(xs, key, k)
  {
    if xs != [] {
      var rest := SortBy(xs[1..], key);
      SortBySorts(xs[1..], key);
      InsertSorts(xs[0], rest, key);
      InsertPermutes(xs[0], rest, key);
      forall k ensures Class(SortBy(xs, key), key, k) == Class(xs, key, k) {
        InsertKeepsClass(xs[0], rest, key, k);
      }
      assert xs == [xs[0]] + xs[1..];
    }
  }

  lemma {:induction false} ClassMembers<T>(xs: seq<T>, key: T -> Key, k: Key)
    ensures forall x | x in Class(xs, key, k) :: x in xs && key(x) == k
    ensures Class(xs, key, k) == [] ==> forall x | x in xs :: key(x) != k
  {
    if xs != [] {
      ClassMembers(xs[1..], key, k);
    }
  }

  /** A sorted sequence is determined by its classes, so every stable sort gives the same result. */
  lemma {:induction false} SortedUnique<T>(a: seq<T>, b: seq<T>, key: T -> Key)
    requires Sorted(a, key) && Sorted(b, key)
    requires forall k :: Class(a, key, k) == Class(b, key, k)
    ensures a == b
  {
    assert b != [] ==> Class(b, key, key(b[0])) != [];
    if a != [] {
      KeyOrder();
      var ka := key(a[0]);
      assert Class(a, key, ka)[0] == a[0];
      ClassMembers(b, key, ka);
      assert a[0] in b;
      var kb := key(b[0]);
      assert Class(b, key, kb)[0] == b[0];
      ClassMembers(a, key, kb);
      assert b[0] in a;
      assert ka == kb;
      forall k ensures Class(a[1..], key, k) == Class(b[1..], key, k) {
        assert Class(a, key, k) == Class(b, key, k);
        if k == ka {
          assert Class(a[1..], key, k) == Class(a, key, k)[1..];
          assert Class(b[1..], key, k) == Class(b, key, k)[1..];
        } else {
          assert Class(a, key, k) == Class(a[1..], key, k);
          assert Class(b, key, k) == Class(b[1..], key, k);
        }
      }
      SortedUnique(a[1..], b[1..], key);
      assert a == [a[0]] + a[1..] && b == [b[0]] + b[1..];
    }
  }

  /** No two different elements share a key. */
  ghost predicate NoTies<T>(xs: seq<T>, key: T -> Key) {
    forall x, y | x in xs && y in xs && key(x) == key(y) :: x == y
  }

  function Repeat<T>(v: T, n: nat): seq<T> {
    if n == 0 then [] else [v] + Repeat(v, n - 1)
  }

  lemma {:induction false} ClassIsRepetition<T>(xs: seq<T>, key: T -> Key, v: T)
    requires forall x | x in xs && key(x) == key(v) :: x == v
    ensures Class(xs, key, key(v)) == Repeat(v, multiset(xs)[v])
  {
    if xs != [] {
      var head, tail := xs[0], xs[1..];
      assert xs == [head] + tail;
      assert multiset(xs) == multiset{head} + multiset(tail);
      ClassIsRepetition(tail, key, v);
      ClassHead(xs, key, key(v));
      hide Class;
      if head == v {
        assert multiset(xs)[v] == multiset(tail)[v] + 1;
      } else {
        assert head in xs && key(head) != key(v);
        assert multiset(xs)[v] == multiset(tail)[v];
      }
    }
  }

  /** Without ties, a permutation does not change any class. */
  lemma PermutedClass<T>(a: seq<T>, b: seq<T>, key: T -> Key, k: Key)
    requires multiset(a) == multiset(b) && NoTies(a, key)
    ensures Class(a, key, k) == Class(b, key, k)
  {
    ClassMembers(a, key, k);
    ClassMembers(b, key, k);
    assert Class(b, key, k) != [] ==> Class(b, key, k)[0] in Class(b, key, k);
    assert forall x :: x in a <==> x in multiset(a);
    assert forall x :: x in b <==> x in multiset(b);
    if Class(a, key, k) != [] {
      var v := Class(a, key, k)[0];
      assert v in Class(a, key, k);
      ClassIsRepetition(a, key, v);
      ClassIsRepetition(b, key, v);
    }
  }

  // ---------------------------------------------------------------- sorted sets of strings

  ghost predicate StrictlySorted(xs: seq<string>) {
    forall i, j | 0 <= i < j < |xs| :: StrLe(xs[i], xs[j]) && xs[i] != xs[j]
  }

  ghost function Elements<T>(xs: seq<T>): set<T> {
    set x | x in xs
  }

  function InsertDistinct(x: string, xs: seq<string>): seq<string> {
    if xs == [] then [x]
    else if x == xs[0] then xs
    else if StrLe(x, xs[0]) then [x] + xs
    else [xs[0]] + InsertDistinct(x, xs[1..])
  }

  /** sorted(set(xs)). */
  function SortedDistinct(xs: seq<string>): seq<string> {
    if xs == [] then [] else InsertDistinct(xs[0], SortedDistinct(xs[1..]))
  }

  lemma {:induction false} InsertDistinctElements(x: string, xs: seq<string>)
    ensures Elements(InsertDistinct(x, xs)) == {x} + Elements(xs)
  {
    if xs != [] {
      InsertDistinctElements(x, xs[1..]);
      assert Elements(xs) == {xs[0]} + Elements(xs[1..]);
      var rest := InsertDistinct(x, xs[1..]);
      assert Elements([xs[0]] + rest) == {xs[0]} + Elements(rest);
      assert Elements([x] + xs) == {x} + Elements(xs);
    }
  }

  lemma {:induction false} InsertDistinctSorts(x: string, xs: seq<string>)
    requires StrictlySorted(xs)
    ensures StrictlySorted(InsertDistinct(x, xs))
    ensures Elements(InsertDistinct(x, xs)) == {x} + Elements(xs)
  {
    StrOrder();
    hide StrLe;
    InsertDistinctElements(x, xs);
    if xs != [] && x != xs[0] && !StrLe(x, xs[0]) {
      InsertDistinctSorts(x, xs[1..]);
      var rest := InsertDistinct(x, xs[1..]);
      forall j | 0 <= j < |rest| ensures StrLe(xs[0], rest[j]) && xs[0] != rest[j] {
        assert rest[j] in Elements(rest);
      }
    }
  }

  lemma {:induction false} SortedDistinctSorts(xs: seq<string>)
    ensures StrictlySorted(SortedDistinct(xs))
    ensures Elements(SortedDistinct(xs)) == Elements(xs)
  {
    if xs != [] {
      SortedDistinctSorts(xs[1..]);
      InsertDistinctSorts(xs[0], SortedDistinct(xs[1..]));
      assert Elements(xs) == {xs[0]} + Elements(xs[1..]);
    }
  }

  /** A strictly sorted sequence is determined by its set of elements. */
  lemma {:induction false} StrictlySortedUnique(a: seq<string>, b: seq<string>)
    requires StrictlySorted(a) && StrictlySorted(b) && Elements(a) == Elements(b)
    ensures a == b
  {
    assert b != [] ==> b[0] in Elements(b);
    if a != [] {
      StrOrder();
      assert a[0] in Elements(a) && a[0] in Elements(b);
      assert b != [] && b[0] in Elements(b) && b[0] in Elements(a);
      assert a[0] == b[0];
      assert Elements(a[1..]) == Elements(a) - {a[0]};
      assert Elements(b[1..]) == Elements(b) - {b[0]};
      StrictlySortedUnique(a[1..], b[1..]);
      assert a == [a[0]] + a[1..] && b == [b[0]] + b[1..];
    }
  }

  lemma SortedDistinctSame(a: seq<string>, b: seq<string>)
    requires Elements(a) == Elements(b)
    ensures SortedDistinct(a) == SortedDistinct(b)
  {
    SortedDistinctSorts(a);
    SortedDistinctSorts(b);
    StrictlySortedUnique(SortedDistinct(a), SortedDistinct(b));
  }
}
