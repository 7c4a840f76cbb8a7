/** Sorting keyed items.  With distinct keys the result depends only on which items there are. */
module Sorting {

  datatype Item<K, V> = Item(key: K, value: V)

  ghost predicate TotalOrder<K(!new)>(less: (K, K) -> bool) {
    && (forall a :: !less(a, a))
    && (forall a, b, c :: less(a, b) && less(b, c) ==> less(a, c))
    && (forall a, b :: a == b || less(a, b) || less(b, a))
  }

  ghost predicate DistinctKeys<K, V>(xs: seq<Item<K, V>>) {
    forall i, j :: 0 <= i < j < |xs| ==> xs[i].key != xs[j].key
  }

  ghost predicate StrictlySorted<K, V>(less: (K, K) -> bool, xs: seq<Item<K, V>>) {
    forall i, j :: 0 <= i < j < |xs| ==> less(xs[i].key, xs[j].key)
  }

  function Insert<K, V>(less: (K, K) -> bool, xs: seq<Item<K, V>>, x: Item<K, V>): seq<Item<K, V>> {
    if xs == [] then [x]
    else if less(x.key, xs[0].key) then [x] + xs
    else [xs[0]] + Insert(less, xs[1..], x)
  }

  /** `sorted(xs, key=...)`. */
  function Sort<K, V>(less: (K, K) -> bool, xs: seq<Item<K, V>>): seq<Item<K, V>> {
    if xs == [] then [] else Insert(less, Sort(less, xs[..|xs| - 1]), xs[|xs| - 1])
  }

  lemma {:induction false} InsertContents<K, V>(less: (K, K) -> bool, xs: seq<Item<K, V>>, x: Item<K, V>)
    ensures multiset(Insert(less, xs, x)) == multiset(xs) + multiset{x}
  {
    if xs != [] {
      assert xs == [xs[0]] + xs[1..];
      if !less(x.key, xs[0].key) {
        InsertContents(less, xs[1..], x);
      }
    }
  }

  lemma {:induction false} SortContents<K, V>(less: (K, K) -> bool, xs: seq<Item<K, V>>)
    ensures multiset(Sort(less, xs)) == multiset(xs)
  {
    if xs != [] {
      var front := xs[..|xs| - 1];
      SortContents(less, front);
      InsertContents(less, Sort(less, front), xs[|xs| - 1]);
      assert xs == front + [xs[|xs| - 1]];
    }
  }

  lemma {:induction false} InsertSorts<K(!new), V>(less: (K, K) -> bool, xs: seq<Item<K, V>>, x: Item<K, V>)
    requires TotalOrder(less) && StrictlySorted(less, xs)
    requires forall i :: 0 <= i < |xs| ==> xs[i].key != x.key
    ensures StrictlySorted(less, Insert(less, xs, x))
  {
    if xs != [] {
      if less(x.key, xs[0].key) {
        forall i | 0 <= i < |xs|
          ensures less(x.key, xs[i].key)
        {
          assert i > 0 ==> less(xs[0].key, xs[i].key);
        }
      } else {
        InsertSorts(less, xs[1..], x);
        var r := Insert(less, xs[1..], x);
        InsertContents(less, xs[1..], x);
        forall i | 0 <= i < |r|
          ensures less(xs[0].key, r[i].key)
        {
          assert r[i] in multiset(r);
          assert r[i] == x || r[i] in xs[1..];
        }
      }
    }
  }

  lemma {:induction false} SortSorts<K(!new), V>(less: (K, K) -> bool, xs: seq<Item<K, V>>)
    requires TotalOrder(less) && DistinctKeys(xs)
    ensures StrictlySorted(less, Sort(less, xs))
  {
    if xs != [] {
      var front, last := xs[..|xs| - 1], xs[|xs| - 1];
      SortSorts(less, front);
      SortContents(less, front);
      var r := Sort(less, front);
      forall i | 0 <= i < |r|
        ensures r[i].key != last.key
      {
        assert r[i] in multiset(r);
        assert r[i] in front;
      }
      InsertSorts(less, r, last);
    }
  }

  /** Two strictly sorted arrangements of the same items are the same. */
  lemma {:induction false} SortedUnique<K(!new), V>(less: (K, K) -> bool, xs: seq<Item<K, V>>, ys: seq<Item<K, V>>)
    requires TotalOrder(less) && StrictlySorted(less, xs) && StrictlySorted(less, ys)
    requires multiset(xs) == multiset(ys)
    ensures xs == ys
    decreases |xs|
  {
    if xs == [] {
      assert |multiset(ys)| == 0;
    } else {
      SameHead(less, xs, ys);
      assert xs == [xs[0]] + xs[1..];
      assert ys == [ys[0]] + ys[1..];
      assert multiset(xs[1..]) == multiset(xs) - multiset{xs[0]} == multiset(ys[1..]);
      SortedUnique(less, xs[1..], ys[1..]);
    }
  }

  lemma SameHead<K(!new), V>(less: (K, K) -> bool, xs: seq<Item<K, V>>, ys: seq<Item<K, V>>)
    requires TotalOrder(less) && StrictlySorted(less, xs) && StrictlySorted(less, ys)
    requires multiset(xs) == multiset(ys) && xs != []
    ensures ys != [] && ys[0] == xs[0]
  {
    assert xs[0] in multiset(ys);
    var i :| 0 <= i < |ys| && ys[i] == xs[0];
    assert ys[0] in multiset(xs);
    var j :| 0 <= j < |xs| && xs[j] == ys[0];
    var x, y := xs[0], ys[0];
    assert i > 0 ==> less(y.key, x.key);
    assert j > 0 ==> less(x.key, y.key);
  }

  lemma DistinctPermuted<K, V>(xs: seq<Item<K, V>>, ys: seq<Item<K, V>>)
    requires DistinctKeys(xs) && multiset(xs) == multiset(ys)
    ensures DistinctKeys(ys)
  {
    forall i, j | 0 <= i < j < |ys|
      ensures ys[i].key != ys[j].key
    {
      assert ys == ys[..i] + [ys[i]] + ys[i + 1..j] + [ys[j]] + ys[j + 1..];
      assert ys[i] in multiset(xs) && ys[j] in multiset(xs);
      var a :| 0 <= a < |xs| && xs[a] == ys[i];
      var b :| 0 <= b < |xs| && xs[b] == ys[j];
      if ys[i] == ys[j] {
        assert multiset(ys)[ys[i]] >= 2;
        OnceEach(xs, ys[i]);
      }
      assert a != b;
    }
  }

  lemma {:induction false} OnceEach<K, V>(xs: seq<Item<K, V>>, x: Item<K, V>)
    requires DistinctKeys(xs)
    ensures multiset(xs)[x] <= 1
  {
    if xs != [] {
      var front, last := xs[..|xs| - 1], xs[|xs| - 1];
      OnceEach(front, x);
      assert xs == front + [last];
      if x == last {
        assert x !in front;
      }
    }
  }

  /** With distinct keys, sorting forgets the order of its input. */
  lemma SortForgetsOrder<K(!new), V>(less: (K, K) -> bool, xs: seq<Item<K, V>>, ys: seq<Item<K, V>>)
    requires TotalOrder(less) && DistinctKeys(xs) && multiset(xs) == multiset(ys)
    ensures Sort(less, xs) == Sort(less, ys)
  {
    DistinctPermuted(xs, ys);
    SortSorts(less, xs);
    SortSorts(less, ys);
    SortContents(less, xs);
    SortContents(less, ys);
    SortedUnique(less, Sort(less, xs), Sort(less, ys));
  }

  // ----- The orders in use

  predicate IntLess(a: int, b: int) {
    a < b
  }

  /** Order of strings by code point. */
  predicate TextLess(a: string, b: string) {
    if b == "" then false
    else if a == "" then true
    else a[0] < b[0] || (a[0] == b[0] && TextLess(a[1..], b[1..]))
  }

  lemma {:induction false} TextIrreflexive(a: string)
    ensures !TextLess(a, a)
  {
    if a != "" {
      TextIrreflexive(a[1..]);
    }
  }

  lemma {:induction false} TextTransitive(a: string, b: string, c: string)
    requires TextLess(a, b) && TextLess(b, c)
    ensures TextLess(a, c)
  {
    if a != "" && a[0] == b[0] && b[0] == c[0] {
      TextTransitive(a[1..], b[1..], c[1..]);
    }
  }

  lemma {:induction false} TextConnected(a: string, b: string)
    ensures a == b || TextLess(a, b) || TextLess(b, a)
  {
    if a != "" && b != "" && a[0] == b[0] {
      TextConnected(a[1..], b[1..]);
      assert a == [a[0]] + a[1..] && b == [b[0]] + b[1..];
    }
  }

  lemma TextOrder()
    ensures TotalOrder(TextLess)
  {
    forall a: string
      ensures !TextLess(a, a)
    {
      TextIrreflexive(a);
    }
    forall a: string, b: string, c: string | TextLess(a, b) && TextLess(b, c)
      ensures TextLess(a, c)
    {
      TextTransitive(a, b, c);
    }
    forall a: string, b: string
      ensures a == b || TextLess(a, b) || TextLess(b, a)
    {
      TextConnected(a, b);
    }
  }
}
