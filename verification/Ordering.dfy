/**
 Three-way comparators, stable sorting and filtering of sequences.
 The evidence projection sorts its candidate lists with comparator callbacks;
 this module says what such a sort promises and when its result no longer
 depends on the order in which the candidates arrived.
 */
module Ordering {

  /** A mark that names the three values of one use of transitivity. */
  ghost predicate Chain<T>(a: T, b: T, d: T) { true }

  /** A comparator whose sign is a total preorder. */
  ghost predicate Lawful<T(!new)>(c: (T, T) -> int) {
    && (forall a, b :: c(a, b) <= 0 <==> c(b, a) >= 0)
    && (forall a, b, d {:trigger Chain(a, b, d)} :: Chain(a, b, d) && c(a, b) <= 0 && c(b, d) <= 0 ==> c(a, d) <= 0)
  }

  /** `x || y` on comparison results: the second decides the ties of the first. */
  function Or(x: int, y: int): int { if x != 0 then x else y }

  /** How the comparisons of `a` with `b`, `b` with `d` and `a` with `d` must hang together. */
  predicate Triple(ab: int, bd: int, ad: int) {
    ab <= 0 && bd <= 0 ==> ad <= 0 && (ad == 0 ==> ab == 0 && bd == 0)
  }

  predicate Mirror(ab: int, ba: int) { (ab <= 0 <==> ba >= 0) && (ba <= 0 <==> ab >= 0) }

  function CompareNumber(a: nat, b: nat): int { a - b }

  /** Code-unit order of text. */
  function CompareText(a: string, b: string): int {
    if a == [] && b == [] then 0
    else if a == [] then -1
    else if b == [] then 1
    else if a[0] != b[0] then a[0] as int - b[0] as int
    else CompareText(a[1..], b[1..])
  }

  lemma {:induction false} CompareTextOrder(a: string, b: string)
    ensures CompareText(a, b) == 0 <==> a == b
    ensures Mirror(CompareText(a, b), CompareText(b, a))
  {
    if a != [] && b != [] {
      CompareTextOrder(a[1..], b[1..]);
      assert a == [a[0]] + a[1..] && b == [b[0]] + b[1..];
    }
  }

  lemma {:induction false} CompareTextTransitive(a: string, b: string, d: string)
    ensures Triple(CompareText(a, b), CompareText(b, d), CompareText(a, d))
  {
    if a != [] && b != [] && d != [] && a[0] == b[0] == d[0] {
      CompareTextTransitive(a[1..], b[1..], d[1..]);
    }
  }

  /** The shorter text in front of its extensions, and otherwise the smaller first difference. */
  ghost predicate Before(a: string, b: string) {
    || (exists rest: string :: rest != [] && b == a + rest)
    || (exists k: nat :: k < |a| && k < |b| && a[..k] == b[..k] && a[k] < b[k])
  }

  lemma {:induction false} TextOrder(a: string, b: string)
    ensures CompareText(a, b) < 0 <==> Before(a, b)
  {
    if a == [] {
      assert b == a + b;
    } else if b == [] {
    } else if a[0] != b[0] {
      if a[0] < b[0] { assert a[..0] == b[..0]; }
      if k: nat :| k < |a| && k < |b| && a[..k] == b[..k] && a[k] < b[k] { assert k > 0 ==> a[..k][0] == b[..k][0]; }
    } else {
      TextOrder(a[1..], b[1..]);
      SameFirst(a, b);
    }
  }

  lemma SameFirst(a: string, b: string)
    requires a != [] && b != [] && a[0] == b[0]
    ensures Before(a, b) <==> Before(a[1..], b[1..])
  {
    if rest: string :| rest != [] && b == a + rest { assert b[1..] == a[1..] + rest; }
    if rest: string :| rest != [] && b[1..] == a[1..] + rest { assert b == a + rest; }
    if k: nat :| k < |a| && k < |b| && a[..k] == b[..k] && a[k] < b[k] {
      assert k > 0 && a[1..][..k - 1] == a[..k][1..] && b[1..][..k - 1] == b[..k][1..];
      assert a[1..][k - 1] < b[1..][k - 1];
    }
    if k: nat :| k < |a[1..]| && k < |b[1..]| && a[1..][..k] == b[1..][..k] && a[1..][k] < b[1..][k] {
      assert a[..k + 1] == [a[0]] + a[1..][..k] && b[..k + 1] == [b[0]] + b[1..][..k];
      assert a[k + 1] < b[k + 1];
    }
  }

  lemma TextIsLawful()
    ensures Lawful(CompareText)
  {
    hide CompareText;
    forall a, b, d
      ensures Mirror(CompareText(a, b), CompareText(b, a))
      ensures Triple(CompareText(a, b), CompareText(b, d), CompareText(a, d))
    {
      CompareTextOrder(a, b);
      CompareTextTransitive(a, b, d);
    }
  }

  // ---- sorting -----------------------------------------------------------

  ghost predicate Sorted<T>(s: seq<T>, c: (T, T) -> int) {
    forall i, j :: 0 <= i < j < |s| ==> c(s[i], s[j]) <= 0
  }

  /** Insert behind every element that does not compare greater, as a stable sort does. */
  function InsertStable<T>(s: seq<T>, x: T, c: (T, T) -> int): (r: seq<T>)
    ensures multiset(r) == multiset(s) + multiset{x}
  {
    if s == [] || c(s[|s| - 1], x) <= 0 then s + [x]
    else
      assert s == s[..|s| - 1] + [s[|s| - 1]];
      InsertStable(s[..|s| - 1], x, c) + [s[|s| - 1]]
  }

  /** Stable insertion sort. */
  function StableSort<T>(s: seq<T>, c: (T, T) -> int): (r: seq<T>)
    ensures multiset(r) == multiset(s)
  {
    if s == [] then []
    else
      assert s == s[..|s| - 1] + [s[|s| - 1]];
      InsertStable(StableSort(s[..|s| - 1], c), s[|s| - 1], c)
  }

  lemma {:induction false} InsertStableSorted<T(!new)>(s: seq<T>, x: T, c: (T, T) -> int)
    requires Lawful(c) && Sorted(s, c)
    ensures Sorted(InsertStable(s, x, c), c)
  {
    var r := InsertStable(s, x, c);
    if s == [] {
    } else if c(s[|s| - 1], x) <= 0 {
      forall i, j | 0 <= i < j < |r| ensures c(r[i], r[j]) <= 0 {
        assert j == |s| ==> Chain(r[i], s[|s| - 1], x);
      }
    } else {
      var front, last := InsertStable(s[..|s| - 1], x, c), s[|s| - 1];
      InsertStableSorted(s[..|s| - 1], x, c);
      forall i, j | 0 <= i < j < |r| ensures c(r[i], r[j]) <= 0 {
        if j == |r| - 1 { InsertStableBelow(s[..|s| - 1], x, c, last, i); }
      }
    }
  }

  /** Inserting keeps every element below a common upper bound. */
  lemma InsertStableBelow<T(!new)>(s: seq<T>, x: T, c: (T, T) -> int, bound: T, i: nat)
    requires c(x, bound) <= 0 && forall k :: 0 <= k < |s| ==> c(s[k], bound) <= 0
    requires i < |InsertStable(s, x, c)|
    ensures c(InsertStable(s, x, c)[i], bound) <= 0
  {
    assert InsertStable(s, x, c)[i] in multiset(InsertStable(s, x, c));
  }

  lemma {:induction false} StableSortSorted<T(!new)>(s: seq<T>, c: (T, T) -> int)
    requires Lawful(c)
    ensures Sorted(StableSort(s, c), c)
  {
    if s != [] {
      StableSortSorted(s[..|s| - 1], c);
      InsertStableSorted(StableSort(s[..|s| - 1], c), s[|s| - 1], c);
    }
  }

  /** Image of a sequence. */
  function Map<T, K>(s: seq<T>, f: T -> K): (r: seq<K>)
    ensures |r| == |s|
    ensures forall i {:trigger r[i]} :: 0 <= i < |s| ==> r[i] == f(s[i])
  {
    seq(|s|, i requires 0 <= i < |s| => f(s[i]))
  }

  /** The head of a sorted sequence is below everything the sequence holds. */
  lemma HeadIsLeast<T(!new), K>(s: seq<T>, c: (T, T) -> int, key: T -> K, x: T)
    requires Lawful(c) && Sorted(s, c) && s != []
    requires forall a, b :: c(a, b) == 0 <==> key(a) == key(b)
    requires key(x) in Map(s, key)
    ensures c(s[0], x) <= 0
  {
    var j :| 0 <= j < |s| && Map(s, key)[j] == key(x);
    assert c(s[j], x) == 0 && Chain(s[0], s[j], x);
  }

  /** Sorting forgets arrival order, up to what the comparator cannot tell apart. */
  lemma {:induction false} SortedImagesAgree<T(!new), K>(s: seq<T>, t: seq<T>, c: (T, T) -> int, key: T -> K)
    requires Lawful(c) && Sorted(s, c) && Sorted(t, c)
    requires forall a, b :: c(a, b) == 0 <==> key(a) == key(b)
    requires multiset(Map(s, key)) == multiset(Map(t, key))
    ensures Map(s, key) == Map(t, key)
  {
    SameSize(Map(s, key), Map(t, key));
    if s != [] {
      HeadsTie(s, t, c, key);
      TailsMatch(Map(s, key), Map(t, key));
      assert Map(s[1..], key) == Map(s, key)[1..] && Map(t[1..], key) == Map(t, key)[1..];
      SortedImagesAgree(s[1..], t[1..], c, key);
      assert Map(s, key) == [key(s[0])] + Map(s[1..], key) && Map(t, key) == [key(t[0])] + Map(t[1..], key);
    }
  }

  lemma SameSize<K>(a: seq<K>, b: seq<K>)
    requires multiset(a) == multiset(b)
    ensures |a| == |b|
  {
    assert |a| == |multiset(a)| && |b| == |multiset(b)|;
  }

  lemma SameMembers<T>(s: seq<T>, t: seq<T>)
    requires multiset(s) == multiset(t)
    ensures forall x :: x in s <==> x in t
  {
    forall x ensures x in s <==> x in t { assert x in multiset(s) <==> x in multiset(t); }
  }

  lemma HeadsTie<T(!new), K>(s: seq<T>, t: seq<T>, c: (T, T) -> int, key: T -> K)
    requires Lawful(c) && Sorted(s, c) && Sorted(t, c) && s != [] && t != []
    requires forall a, b :: c(a, b) == 0 <==> key(a) == key(b)
    requires multiset(Map(s, key)) == multiset(Map(t, key))
    ensures key(s[0]) == key(t[0])
  {
    assert Map(s, key)[0] in multiset(Map(t, key)) && Map(t, key)[0] in multiset(Map(s, key));
    HeadIsLeast(t, c, key, s[0]);
    HeadIsLeast(s, c, key, t[0]);
  }

  lemma TailsMatch<K>(a: seq<K>, b: seq<K>)
    requires a != [] && b != [] && a[0] == b[0] && multiset(a) == multiset(b)
    ensures multiset(a[1..]) == multiset(b[1..])
  {
    assert a == [a[0]] + a[1..] && b == [b[0]] + b[1..];
    assert multiset(a[1..]) == multiset(a) - multiset{a[0]};
    assert multiset(b[1..]) == multiset(b) - multiset{b[0]};
  }

  /** Where an element of one arrival sits in another. */
  lemma Origin<T>(s: seq<T>, t: seq<T>, i: nat) returns (j: nat)
    requires i < |s| && multiset(s) == multiset(t)
    ensures j < |t| && t[j] == s[i]
  {
    assert s[i] in multiset(t);
    j :| 0 <= j < |t| && t[j] == s[i];
  }

  /** A sequence without the element at `j`. */
  function Cut<T>(s: seq<T>, j: nat): (r: seq<T>)
    requires j < |s|
    ensures multiset(s) == multiset(r) + multiset{s[j]}
  {
    assert s == s[..j] + ([s[j]] + s[j + 1..]);
    s[..j] + s[j + 1..]
  }

  /** Taking images preserves permutations. */
  lemma {:induction false} MapMultiset<T, K>(s: seq<T>, t: seq<T>, f: T -> K)
    requires multiset(s) == multiset(t)
    ensures multiset(Map(s, f)) == multiset(Map(t, f))
  {
    SameSize(s, t);
    if s != [] {
      var j := Origin(s, t, 0);
      MapCut(s, 0, f);
      MapCut(t, j, f);
      hide Map, Cut;
      assert multiset(Cut(s, 0)) == multiset(s) - multiset{s[0]} == multiset(Cut(t, j));
      MapMultiset(Cut(s, 0), Cut(t, j), f);
    }
  }

  lemma MapCut<T, K>(s: seq<T>, j: nat, f: T -> K)
    requires j < |s|
    ensures |Cut(s, j)| == |s| - 1
    ensures multiset(Map(s, f)) == multiset(Map(Cut(s, j), f)) + multiset{f(s[j])}
  {
    assert Map(Cut(s, j), f) == Cut(Map(s, f), j);
  }

  /** Two arrivals of the same elements sort to the same sequence of keys. */
  lemma SortForgetsArrival<T(!new), K>(s: seq<T>, t: seq<T>, c: (T, T) -> int, key: T -> K)
    requires Lawful(c) && multiset(s) == multiset(t)
    requires forall a, b :: c(a, b) == 0 <==> key(a) == key(b)
    ensures Map(StableSort(s, c), key) == Map(StableSort(t, c), key)
  {
    StableSortSorted(s, c);
    StableSortSorted(t, c);
    MapMultiset(StableSort(s, c), StableSort(t, c), key);
    SortedImagesAgree(StableSort(s, c), StableSort(t, c), c, key);
  }

  // ---- filtering ---------------------------------------------------------

  function Filter<T>(s: seq<T>, p: T -> bool): (r: seq<T>)
    ensures |r| <= |s|
    ensures forall x | x in r :: x in s && p(x)
    ensures forall x | x in s :: p(x) ==> x in r
    ensures r != [] ==> r[0] in s && p(r[0])
  {
    if s == [] then []
    else
      assert s == s[..|s| - 1] + [s[|s| - 1]];
      Filter(s[..|s| - 1], p) + if p(s[|s| - 1]) then [s[|s| - 1]] else []
  }

  lemma FilterSnoc<T>(s: seq<T>, x: T, p: T -> bool)
    ensures Filter(s + [x], p) == Filter(s, p) + if p(x) then [x] else []
  {
    assert (s + [x])[..|s|] == s;
  }

  /** Selecting twice is selecting by both tests. */
  lemma {:induction false} FilterTwice<T>(s: seq<T>, p: T -> bool, q: T -> bool, both: T -> bool)
    requires forall x {:trigger both(x)} :: both(x) == (p(x) && q(x))
    ensures Filter(s, both) == Filter(Filter(s, p), q)
    decreases |s|
  {
    if s != [] {
      var front, last := s[..|s| - 1], s[|s| - 1];
      FilterTwice(front, p, q, both);
      hide Filter;
      assert s == front + [last];
      FilterSnoc(front, last, p);
      FilterSnoc(front, last, both);
      FilterSnoc(Filter(front, p), last, q);
      assert Filter(s, p) == if p(last) then Filter(front, p) + [last] else Filter(front, p);
    }
  }

  /** Selecting after taking images is selecting before, when the two tests agree. */
  lemma {:induction false} FilterImage<T, K>(s: seq<T>, f: T -> K, p: K -> bool, q: T -> bool)
    requires forall x :: x in s ==> p(f(x)) == q(x)
    ensures Filter(Map(s, f), p) == Map(Filter(s, q), f)
  {
    if s != [] {
      assert s == s[..|s| - 1] + [s[|s| - 1]];
      assert Map(s, f)[..|s| - 1] == Map(s[..|s| - 1], f);
      FilterImage(s[..|s| - 1], f, p, q);
    }
  }

  /** Two predicates that agree on a sequence select the same elements. */
  lemma {:induction false} FilterCongruence<T>(s: seq<T>, p: T -> bool, q: T -> bool)
    requires forall x :: x in s ==> p(x) == q(x)
    ensures Filter(s, p) == Filter(s, q)
  {
    if s != [] {
      assert s == s[..|s| - 1] + [s[|s| - 1]];
      FilterCongruence(s[..|s| - 1], p, q);
    }
  }

  lemma {:induction false} FilterMultiset<T>(s: seq<T>, p: T -> bool, x: T)
    ensures multiset(Filter(s, p))[x] == if p(x) then multiset(s)[x] else 0
  {
    if s != [] {
      var front, last := s[..|s| - 1], s[|s| - 1];
      FilterMultiset(front, p, x);
      hide Filter;
      assert s == front + [last];
      FilterSnoc(front, last, p);
    }
  }

  /** Selecting from a permutation selects a permutation. */
  lemma FilterPermutation<T(!new)>(s: seq<T>, t: seq<T>, p: T -> bool)
    requires multiset(s) == multiset(t)
    ensures multiset(Filter(s, p)) == multiset(Filter(t, p)) && |Filter(s, p)| == |Filter(t, p)|
    ensures |Filter(s, p)| == 1 ==> Filter(s, p) == Filter(t, p)
  {
    hide Filter;
    forall x ensures multiset(Filter(s, p))[x] == multiset(Filter(t, p))[x] {
      FilterMultiset(s, p, x);
      FilterMultiset(t, p, x);
    }
    assert multiset(Filter(s, p)) == multiset(Filter(t, p));
    SameSize(Filter(s, p), Filter(t, p));
    if |Filter(s, p)| == 1 { var j := Origin(Filter(s, p), Filter(t, p), 0); }
  }

  /** More than one element is selected exactly when two places hold a selected one. */
  lemma {:induction false} TwoSelected<T>(s: seq<T>, p: T -> bool)
    ensures |Filter(s, p)| > 1 <==> exists i, j :: 0 <= i < j < |s| && p(s[i]) && p(s[j])
  {
    if s != [] {
      var front, last := s[..|s| - 1], s[|s| - 1];
      assert s == front + [last];
      FilterSnoc(front, last, p);
      TwoSelected(front, p);
      assert forall k :: 0 <= k < |front| ==> s[k] == front[k];
      hide Filter;
      if Filter(front, p) != [] {
        var x := Filter(front, p)[0];
        var k :| 0 <= k < |front| && front[k] == x;
        assert p(s[k]);
      } else {
        assert forall x :: x in front ==> !p(x);
        assert forall k :: 0 <= k < |front| ==> s[k] in front;
      }
    }
  }
}
