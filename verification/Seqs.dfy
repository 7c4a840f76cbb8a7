/** Sequence functions over arbitrary elements, kept apart from what the elements mean. */
module Seqs {

  function FlatMap<A, B>(f: A -> seq<B>, s: seq<A>): seq<B> {
    if s == [] then [] else f(s[0]) + FlatMap(f, s[1..])
  }

  function CountIf<A>(p: A -> bool, s: seq<A>): nat {
    if s == [] then 0 else (if p(s[0]) then 1 else 0) + CountIf(p, s[1..])
  }

  function Filter<A>(p: A -> bool, s: seq<A>): seq<A> {
    if s == [] then [] else (if p(s[0]) then [s[0]] else []) + Filter(p, s[1..])
  }

  /** Lists kept by key; `groups.get(key, [])` looks one up. */
  type Groups<K, V> = map<K, seq<V>>

  function Lookup<K, V>(groups: Groups<K, V>, key: K): seq<V> {
    if key in groups then groups[key] else []
  }

  lemma Regroup<A>(a: seq<A>, b: seq<A>, c: seq<A>)
    ensures a + (b + c) == (a + b) + c
  {
  }

  lemma {:induction false} FlatMapConcat<A, B>(f: A -> seq<B>, xs: seq<A>, ys: seq<A>)
    ensures FlatMap(f, xs + ys) == FlatMap(f, xs) + FlatMap(f, ys)
  {
    if xs == [] {
      assert xs + ys == ys;
    } else {
      FlatMapConcat(f, xs[1..], ys);
      assert (xs + ys)[0] == xs[0] && (xs + ys)[1..] == xs[1..] + ys;
      Regroup(f(xs[0]), FlatMap(f, xs[1..]), FlatMap(f, ys));
    }
  }

  lemma {:induction false} CountIfConcat<A>(p: A -> bool, xs: seq<A>, ys: seq<A>)
    ensures CountIf(p, xs + ys) == CountIf(p, xs) + CountIf(p, ys)
  {
    if xs == [] {
      assert xs + ys == ys;
    } else {
      CountIfConcat(p, xs[1..], ys);
      assert (xs + ys)[1..] == xs[1..] + ys;
    }
  }

  lemma {:induction false} FilterConcat<A>(p: A -> bool, xs: seq<A>, ys: seq<A>)
    ensures Filter(p, xs + ys) == Filter(p, xs) + Filter(p, ys)
  {
    if xs == [] {
      assert xs + ys == ys;
    } else {
      FilterConcat(p, xs[1..], ys);
      assert (xs + ys)[0] == xs[0] && (xs + ys)[1..] == xs[1..] + ys;
      Regroup(if p(xs[0]) then [xs[0]] else [], Filter(p, xs[1..]), Filter(p, ys));
    }
  }

  lemma {:induction false} FilterKeeps<A>(p: A -> bool, s: seq<A>)
    ensures forall i :: 0 <= i < |Filter(p, s)| ==> p(Filter(p, s)[i]) && Filter(p, s)[i] in s
  {
    if s != [] {
      FilterKeeps(p, s[1..]);
    }
  }

  lemma FilterHead<A>(p: A -> bool, s: seq<A>, more: seq<A>)
    requires s != [] && p(s[0])
    ensures var r := Filter(p, s) + more;
            r != [] && r[0] == s[0] && r[1..] == Filter(p, s[1..]) + more
  {
    HeadAndTail(s[0], Filter(p, s[1..]), more);
  }

  lemma HeadAndTail<A>(x: A, rest: seq<A>, more: seq<A>)
    ensures var r := ([x] + rest) + more;
            r != [] && r[0] == x && r[1..] == rest + more
  {
    var r := ([x] + rest) + more;
    assert |r| == 1 + |rest| + |more|;
    assert r[1..] == rest + more;
  }

  lemma FlatMapOne<A, B>(f: A -> seq<B>, x: A)
    ensures FlatMap(f, [x]) == f(x)
  {
    assert [x][1..] == [];
    assert FlatMap(f, [x][1..]) == [];
  }

  lemma CountIfOne<A>(p: A -> bool, x: A)
    ensures CountIf(p, [x]) == if p(x) then 1 else 0
  {
    assert [x][1..] == [];
  }

  lemma {:induction false} FlatMapSame<A, B>(f: A -> seq<B>, xs: seq<A>, ys: seq<A>)
    requires |xs| == |ys| && forall i :: 0 <= i < |xs| ==> f(xs[i]) == f(ys[i])
    ensures FlatMap(f, xs) == FlatMap(f, ys)
  {
    if xs != [] {
      FlatMapSame(f, xs[1..], ys[1..]);
    }
  }

  /** Where each element gives one result, the results come out in order. */
  lemma {:induction false} FlatMapSingles<A, B>(f: A -> seq<B>, xs: seq<A>, ys: seq<B>)
    requires |xs| == |ys| && forall i :: 0 <= i < |xs| ==> f(xs[i]) == [ys[i]]
    ensures FlatMap(f, xs) == ys
  {
    if xs != [] {
      FlatMapSingles(f, xs[1..], ys[1..]);
      assert [ys[0]] + ys[1..] == ys;
    }
  }

  lemma {:induction false} CountIfSame<A>(p: A -> bool, xs: seq<A>, ys: seq<A>)
    requires |xs| == |ys| && forall i :: 0 <= i < |xs| ==> p(xs[i]) == p(ys[i])
    ensures CountIf(p, xs) == CountIf(p, ys)
  {
    if xs != [] {
      CountIfSame(p, xs[1..], ys[1..]);
    }
  }

  lemma {:induction false} FilterAll<A>(p: A -> bool, s: seq<A>)
    requires forall i :: 0 <= i < |s| ==> p(s[i])
    ensures Filter(p, s) == s
  {
    if s != [] {
      FilterAll(p, s[1..]);
    }
  }

  lemma {:induction false} FilterNone<A>(p: A -> bool, s: seq<A>)
    requires forall i :: 0 <= i < |s| ==> !p(s[i])
    ensures Filter(p, s) == []
  {
    if s != [] {
      FilterNone(p, s[1..]);
    }
  }

  lemma {:induction false} FilterShrinks<A>(p: A -> bool, s: seq<A>)
    ensures |Filter(p, s)| <= |s|
    ensures |Filter(p, s)| == |s| ==> forall i :: 0 <= i < |s| ==> p(s[i])
  {
    if s != [] {
      FilterShrinks(p, s[1..]);
    }
  }

  /** A filter changes nothing exactly if every element passes it. */
  lemma FilterFixed<A>(p: A -> bool, s: seq<A>, more: seq<A>)
    ensures s + more == Filter(p, s) + more <==> AllOf(p, s)
  {
    FilterShrinks(p, s);
    if AllOf(p, s) {
      FilterAll(p, s);
    } else {
      assert |s + more| != |Filter(p, s) + more|;
    }
  }

  method FilterLoop<A>(p: A -> bool, s: seq<A>) returns (r: seq<A>)
    ensures r == Filter(p, s)
  {
    r := [];
    var rest := s;
    while rest != []
      invariant r + Filter(p, rest) == Filter(p, s)
    {
      var x, kept := rest[0], r;
      if p(x) {
        r := r + [x];
        assert kept + ([x] + Filter(p, rest[1..])) == r + Filter(p, rest[1..]);
      } else {
        assert [] + Filter(p, rest[1..]) == Filter(p, rest[1..]);
      }
      rest := rest[1..];
    }
  }

  predicate AllOf<A>(p: A -> bool, s: seq<A>) {
    forall i :: 0 <= i < |s| ==> p(s[i])
  }

  lemma AllOfConcat<A>(p: A -> bool, xs: seq<A>, ys: seq<A>)
    ensures AllOf(p, xs + ys) <==> AllOf(p, xs) && AllOf(p, ys)
  {
    if AllOf(p, xs + ys) {
      assert forall i :: 0 <= i < |xs| ==> (xs + ys)[i] == xs[i];
      assert forall i :: 0 <= i < |ys| ==> (xs + ys)[|xs| + i] == ys[i];
    }
  }

  lemma {:induction false} AllOfFlatMap<A, B>(f: A -> seq<B>, p: B -> bool, s: seq<A>)
    ensures AllOf(p, FlatMap(f, s)) <==> forall i :: 0 <= i < |s| ==> AllOf(p, f(s[i]))
  {
    if s != [] {
      AllOfFlatMap(f, p, s[1..]);
      AllOfConcat(p, f(s[0]), FlatMap(f, s[1..]));
      assert (forall i :: 0 <= i < |s| ==> AllOf(p, f(s[i]))) <==>
             AllOf(p, f(s[0])) && forall i :: 0 <= i < |s[1..]| ==> AllOf(p, f(s[1..][i])) by {
        assert forall i :: 0 <= i < |s[1..]| ==> s[1..][i] == s[i + 1];
      }
    }
  }

  /** Mapping what a filter keeps is mapping with the rest mapped to nothing. */
  lemma {:induction false} FlatMapFilter<A(!new), B>(f: A -> seq<B>, keep: A -> bool, g: A -> seq<B>, s: seq<A>)
    requires forall x :: g(x) == if keep(x) then f(x) else []
    ensures FlatMap(f, Filter(keep, s)) == FlatMap(g, s)
  {
    if s != [] {
      FlatMapFilter(f, keep, g, s[1..]);
      var kept := Filter(keep, s[1..]);
      if keep(s[0]) {
        FlatMapConcat(f, [s[0]], kept);
        FlatMapOne(f, s[0]);
      } else {
        assert [] + kept == kept;
      }
    }
  }

  lemma SliceOneMore<T>(s: seq<T>, from: nat, n: nat)
    requires from <= n < |s|
    ensures s[from..n + 1] == s[from..n] + [s[n]]
  {
  }

  lemma FlatMapSnoc<A, B>(f: A -> seq<B>, s: seq<A>, i: nat)
    requires i < |s|
    ensures FlatMap(f, s[..i + 1]) == FlatMap(f, s[..i]) + f(s[i])
  {
    assert s[..i + 1] == s[..i] + [s[i]];
    FlatMapConcat(f, s[..i], [s[i]]);
    FlatMapOne(f, s[i]);
  }

  lemma AllOfSnoc<A>(p: A -> bool, s: seq<A>, i: nat)
    requires i < |s|
    ensures AllOf(p, s[..i + 1]) <==> AllOf(p, s[..i]) && p(s[i])
    ensures !p(s[i]) ==> !AllOf(p, s)
  {
    assert s[..i + 1] == s[..i] + [s[i]];
    AllOfConcat(p, s[..i], [s[i]]);
    assert AllOf(p, [s[i]]) <==> p([s[i]][0]);
  }

  lemma {:induction false} CountIfAll<A>(p: A -> bool, s: seq<A>)
    requires AllOf(p, s)
    ensures CountIf(p, s) == |s|
  {
    if s != [] {
      CountIfAll(p, s[1..]);
    }
  }

  lemma {:induction false} CountIfNone<A>(p: A -> bool, s: seq<A>)
    requires forall i :: 0 <= i < |s| ==> !p(s[i])
    ensures CountIf(p, s) == 0
  {
    if s != [] {
      CountIfNone(p, s[1..]);
    }
  }

  /** Two lists that each consist of elements of one kind followed by others split alike. */
  lemma SplitByKind<A>(p: A -> bool, a: seq<A>, b: seq<A>, c: seq<A>, d: seq<A>)
    requires a + b == c + d && AllOf(p, a) && AllOf(p, c)
    requires (forall i :: 0 <= i < |b| ==> !p(b[i])) && forall i :: 0 <= i < |d| ==> !p(d[i])
    ensures a == c && b == d
  {
    CountIfConcat(p, a, b);
    CountIfConcat(p, c, d);
    CountIfAll(p, a);
    CountIfAll(p, c);
    CountIfNone(p, b);
    CountIfNone(p, d);
    assert a == (a + b)[..|a|] && c == (c + d)[..|c|];
    assert b == (a + b)[|a|..] && d == (c + d)[|c|..];
  }

  // ----- Permutations

  /** Permuted lists: the head of one is somewhere in the other, and the rests are permuted. */
  lemma MatchHead<A>(xs: seq<A>, ys: seq<A>) returns (m: nat)
    requires xs != [] && multiset(xs) == multiset(ys)
    ensures m < |ys| && ys[m] == xs[0]
    ensures multiset(xs[1..]) == multiset(ys[..m] + ys[m + 1..])
    ensures ys == ys[..m] + ([xs[0]] + ys[m + 1..])
  {
    assert xs[0] in multiset(ys);
    m :| 0 <= m < |ys| && ys[m] == xs[0];
    assert xs == [xs[0]] + xs[1..];
    assert ys == ys[..m] + ([xs[0]] + ys[m + 1..]);
    assert multiset(xs[1..]) == multiset(xs) - multiset{xs[0]};
  }

  lemma {:induction false} FlatMapPermuted<A, B>(f: A -> seq<B>, xs: seq<A>, ys: seq<A>)
    requires multiset(xs) == multiset(ys)
    ensures multiset(FlatMap(f, xs)) == multiset(FlatMap(f, ys))
    decreases |xs|
  {
    if xs == [] {
      assert |multiset(ys)| == 0;
    } else {
      var m := MatchHead(xs, ys);
      var before, after := ys[..m], ys[m + 1..];
      FlatMapPermuted(f, xs[1..], before + after);
      FlatMapConcat(f, before, [xs[0]] + after);
      FlatMapConcat(f, [xs[0]], after);
      FlatMapConcat(f, before, after);
      FlatMapOne(f, xs[0]);
    }
  }

  lemma AllOfPermuted<A>(p: A -> bool, xs: seq<A>, ys: seq<A>)
    requires multiset(xs) == multiset(ys) && AllOf(p, xs)
    ensures AllOf(p, ys)
  {
    forall i | 0 <= i < |ys|
      ensures p(ys[i])
    {
      assert ys[i] in multiset(ys);
      assert ys[i] in xs;
    }
  }

  // ----- Picking elements

  /** The positions of exactly the elements that are wanted, in order. */
  ghost predicate Positions<A>(s: seq<A>, keep: A -> bool, at: seq<nat>) {
    && (forall j :: 0 <= j < |at| ==> at[j] < |s| && keep(s[at[j]]))
    && (forall i, j :: 0 <= i < j < |at| ==> at[i] < at[j])
    && (forall i :: 0 <= i < |s| && keep(s[i]) ==> i in at)
  }

  lemma PositionsSnoc<A>(s: seq<A>, x: A, keep: A -> bool, at: seq<nat>)
    requires Positions(s, keep, at)
    ensures Positions(s + [x], keep, if keep(x) then at + [|s|] else at)
  {
    var all, at' := s + [x], if keep(x) then at + [|s|] else at;
    assert all[|s|] == x && forall i :: 0 <= i < |s| ==> all[i] == s[i];
    forall i | 0 <= i < |all| && keep(all[i])
      ensures i in at'
    {
      if i < |s| {
        assert i in at;
        var j :| 0 <= j < |at| && at[j] == i;
        assert at'[j] == i;
      } else {
        assert at'[|at|] == i;
      }
    }
  }

  /** These are the values of exactly the wanted elements, each once and in order. */
  ghost predicate PickedAt<A, B>(s: seq<A>, keep: A -> bool, value: A -> B, r: seq<B>, at: seq<nat>) {
    Positions(s, keep, at) && |r| == |at| && forall j :: 0 <= j < |at| ==> r[j] == value(s[at[j]])
  }

  ghost predicate Picked<A, B>(s: seq<A>, keep: A -> bool, value: A -> B, r: seq<B>) {
    exists at: seq<nat> :: PickedAt(s, keep, value, r, at)
  }

  lemma PickedNone<A, B>(keep: A -> bool, value: A -> B)
    ensures Picked([], keep, value, [])
  {
    assert PickedAt([], keep, value, [], []);
  }

  lemma PickedAtSnoc<A, B>(s: seq<A>, x: A, keep: A -> bool, value: A -> B, r: seq<B>, at: seq<nat>)
    requires PickedAt(s, keep, value, r, at)
    ensures PickedAt(s + [x], keep, value, if keep(x) then r + [value(x)] else r, if keep(x) then at + [|s|] else at)
  {
    PositionsSnoc(s, x, keep, at);
    var all, r' := s + [x], if keep(x) then r + [value(x)] else r;
    var at' := if keep(x) then at + [|s|] else at;
    forall j | 0 <= j < |at'|
      ensures r'[j] == value(all[at'[j]])
    {
      if j < |at| {
        assert at'[j] == at[j] && r'[j] == r[j];
        assert all[at[j]] == s[at[j]];
      } else {
        assert at'[j] == |s|;
        assert all[|s|] == x;
      }
    }
  }

  lemma PickedSnoc<A, B>(s: seq<A>, x: A, keep: A -> bool, value: A -> B, r: seq<B>)
    requires Picked(s, keep, value, r)
    ensures Picked(s + [x], keep, value, if keep(x) then r + [value(x)] else r)
  {
    var at: seq<nat> :| PickedAt(s, keep, value, r, at);
    PickedAtSnoc(s, x, keep, value, r, at);
  }

  /** So an element is among them exactly if it is a wanted one. */
  lemma PickedHas<A, B>(s: seq<A>, keep: A -> bool, value: A -> B, r: seq<B>, v: B)
    requires Picked(s, keep, value, r)
    ensures v in r <==> exists i :: 0 <= i < |s| && keep(s[i]) && value(s[i]) == v
  {
    var at: seq<nat> :| PickedAt(s, keep, value, r, at);
    if v in r {
      var j :| 0 <= j < |r| && r[j] == v;
      assert keep(s[at[j]]);
    }
    if i :| 0 <= i < |s| && keep(s[i]) && value(s[i]) == v {
      var j :| 0 <= j < |at| && at[j] == i;
      assert r[j] == v;
    }
  }

  lemma FlatMapAppend<A, B>(f: A -> seq<B>, s: seq<A>, last: A)
    ensures FlatMap(f, s + [last]) == FlatMap(f, s) + f(last)
  {
    FlatMapConcat(f, s, [last]);
    FlatMapOne(f, last);
  }

  /** A function that gives one value for a wanted element and none for any other. */
  ghost predicate PicksOne<A, B>(f: A -> seq<B>, keep: A -> bool, value: A -> B, x: A) {
    f(x) == if keep(x) then [value(x)] else []
  }

  lemma FlatMapPicksOneMore<A, B>(s: seq<A>, last: A, f: A -> seq<B>, keep: A -> bool, value: A -> B)
    requires PicksOne(f, keep, value, last)
    requires Picked(s, keep, value, FlatMap(f, s))
    ensures Picked(s + [last], keep, value, FlatMap(f, s + [last]))
  {
    PickedSnoc(s, last, keep, value, FlatMap(f, s));
    FlatMapAppend(f, s, last);
    assert f(last) == if keep(last) then [value(last)] else [];
    assert FlatMap(f, s) + [] == FlatMap(f, s);
  }

  /** A flat map that gives one value or none picks elements. */
  lemma {:induction false} FlatMapPicks<A, B>(s: seq<A>, f: A -> seq<B>, keep: A -> bool, value: A -> B)
    requires forall i :: 0 <= i < |s| ==> PicksOne(f, keep, value, s[i])
    ensures Picked(s, keep, value, FlatMap(f, s))
  {
    if s == [] {
      PickedNone(keep, value);
    } else {
      var front, last := s[..|s| - 1], s[|s| - 1];
      assert s == front + [last];
      FlatMapPicks(front, f, keep, value);
      FlatMapPicksOneMore(front, last, f, keep, value);
    }
  }
}
