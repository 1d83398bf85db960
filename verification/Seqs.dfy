/** Filtering and mapping sequences, and what both keep of the multiset of elements. */
module Seqs {
  import opened Wrappers

  function Filter<T>(s: seq<T>, p: T -> bool): seq<T> {
    if s == [] then []
    else if p(s[0]) then [s[0]] + Filter(s[1..], p)
    else Filter(s[1..], p)
  }

  lemma {:induction false} FilterConcat<T>(a: seq<T>, b: seq<T>, p: T -> bool)
    ensures Filter(a + b, p) == Filter(a, p) + Filter(b, p)
  {
    if a == [] {
      assert a + b == b;
    } else {
      assert (a + b)[1..] == a[1..] + b;
      FilterConcat(a[1..], b, p);
    }
  }

  lemma {:induction false} FilterMembers<T(!new)>(s: seq<T>, p: T -> bool)
    ensures forall x :: x in Filter(s, p) <==> x in s && p(x)
  {
    if s != [] {
      FilterMembers(s[1..], p);
    }
  }

  lemma {:induction false} FilterAll<T>(s: seq<T>, p: T -> bool)
    requires forall x | x in s :: p(x)
    ensures Filter(s, p) == s
  {
    if s != [] {
      FilterAll(s[1..], p);
    }
  }

  /** An element is kept as often as it occurs, or not at all. */
  lemma {:induction false} FilterCounts<T>(s: seq<T>, p: T -> bool, x: T)
    ensures multiset(Filter(s, p))[x] == if p(x) then multiset(s)[x] else 0
  {
    if s != [] {
      FilterCounts(s[1..], p, x);
      assert s == [s[0]] + s[1..];
    }
  }

  /** Filtering different arrangements of the same elements by agreeing tests keeps the same elements. */
  lemma FilterMultiset<T(!new)>(s: seq<T>, t: seq<T>, p: T -> bool, q: T -> bool)
    requires multiset(s) == multiset(t) && forall x | x in s :: p(x) == q(x)
    ensures multiset(Filter(s, p)) == multiset(Filter(t, q))
  {
    forall x: T
      ensures multiset(Filter(s, p))[x] == multiset(Filter(t, q))[x]
    {
      FilterCounts(s, p, x);
      FilterCounts(t, q, x);
      assert multiset(s)[x] > 0 <==> x in s;
      assert multiset(s)[x] == multiset(t)[x];
    }
    assert multiset(Filter(s, p)) == multiset(Filter(t, q));
  }

  function Map<T, U>(s: seq<T>, f: T -> U): (r: seq<U>)
    ensures |r| == |s| && forall i | 0 <= i < |s| :: r[i] == f(s[i])
  {
    if s == [] then [] else [f(s[0])] + Map(s[1..], f)
  }

  lemma MapConcat<T, U>(a: seq<T>, b: seq<T>, f: T -> U)
    ensures Map(a + b, f) == Map(a, f) + Map(b, f)
  {
  }

  lemma {:induction false} MapIsCollect<T, U>(s: seq<T>, f: T -> U)
    ensures Map(s, f) == Collect(s, x => Some(f(x)))
  {
    if s != [] {
      MapIsCollect(s[1..], f);
    }
  }

  lemma MapMultiset<T(!new), U(!new)>(s: seq<T>, t: seq<T>, f: T -> U)
    requires multiset(s) == multiset(t)
    ensures multiset(Map(s, f)) == multiset(Map(t, f))
  {
    MapIsCollect(s, f);
    MapIsCollect(t, f);
    CollectMultiset(s, t, x => Some(f(x)));
  }

  // ---------------------------------------------------------------- collecting what a test yields

  /** The results of the elements that have one, in order. */
  function Collect<T, U>(s: seq<T>, f: T -> Option<U>): seq<U> {
    if s == [] then []
    else match f(s[0]) case Some(u) => [u] + Collect(s[1..], f) case None => Collect(s[1..], f)
  }

  lemma {:induction false} CollectMembers<T, U>(s: seq<T>, f: T -> Option<U>)
    ensures forall u :: u in Collect(s, f) <==> exists x | x in s :: f(x) == Some(u)
  {
    if s != [] {
      CollectMembers(s[1..], f);
      assert s == [s[0]] + s[1..];
    }
  }

  lemma {:induction false} CollectConcat<T, U>(a: seq<T>, b: seq<T>, f: T -> Option<U>)
    ensures Collect(a + b, f) == Collect(a, f) + Collect(b, f)
  {
    if a == [] {
      assert a + b == b;
    } else {
      assert (a + b)[1..] == a[1..] + b;
      CollectConcat(a[1..], b, f);
    }
  }

  lemma CollectOne<T, U>(x: T, f: T -> Option<U>)
    ensures Collect([x], f) == match f(x) case Some(u) => [u] case None => []
  {
    assert [x][1..] == [];
  }

  lemma CollectSnoc<T, U>(s: seq<T>, i: nat, f: T -> Option<U>)
    requires i < |s|
    ensures Collect(s[..i + 1], f) == Collect(s[..i], f) + match f(s[i]) case Some(u) => [u] case None => []
  {
    assert s[..i + 1] == s[..i] + [s[i]];
    CollectConcat(s[..i], [s[i]], f);
    CollectOne(s[i], f);
  }

  lemma MultisetWithout<T>(s: seq<T>, j: nat)
    requires j < |s|
    ensures multiset(s) == multiset{s[j]} + multiset(s[..j] + s[j + 1..])
    ensures multiset(s[..j] + s[j + 1..]) == multiset(s) - multiset{s[j]}
  {
    assert s == s[..j] + ([s[j]] + s[j + 1..]);
  }

  lemma MiddleOut<T>(x: seq<T>, y: seq<T>, z: seq<T>)
    ensures multiset(x + (y + z)) == multiset(y) + multiset(x + z)
  {
  }

  /** Taking one element out of a sequence takes its result out of the collection. */
  lemma CollectWithout<T, U(!new)>(s: seq<T>, j: nat, f: T -> Option<U>)
    requires j < |s|
    ensures multiset(Collect(s, f)) == multiset(Collect([s[j]], f)) + multiset(Collect(s[..j] + s[j + 1..], f))
  {
    var x, y, z := s[..j], [s[j]], s[j + 1..];
    assert s == x + (y + z);
    CollectConcat(x, y + z, f);
    CollectConcat(y, z, f);
    CollectConcat(x, z, f);
    MiddleOut(Collect(x, f), Collect(y, f), Collect(z, f));
  }

  lemma SameRemainder<T>(s: seq<T>, t: seq<T>, j: nat)
    requires s != [] && j < |t| && t[j] == s[0] && multiset(s) == multiset(t)
    ensures multiset(s[1..]) == multiset(t[..j] + t[j + 1..])
  {
    MultisetWithout(s, 0);
    assert s[..0] + s[1..] == s[1..];
    MultisetWithout(t, j);
  }

  lemma CollectHead<T, U(!new)>(s: seq<T>, f: T -> Option<U>)
    requires s != []
    ensures multiset(Collect(s, f)) == multiset(Collect([s[0]], f)) + multiset(Collect(s[1..], f))
  {
    CollectWithout(s, 0, f);
    assert s[..0] + s[1..] == s[1..];
  }

  /** Different arrangements of the same elements yield the same results, in some order. */
  lemma {:induction false} CollectMultiset<T(!new), U(!new)>(s: seq<T>, t: seq<T>, f: T -> Option<U>)
    requires multiset(s) == multiset(t)
    ensures multiset(Collect(s, f)) == multiset(Collect(t, f))
  {
    if s == [] {
      assert |multiset(t)| == 0;
    } else {
      assert s[0] in multiset(t);
      var j :| 0 <= j < |t| && t[j] == s[0];
      SameRemainder(s, t, j);
      CollectMultiset(s[1..], t[..j] + t[j + 1..], f);
      CollectHead(s, f);
      CollectWithout(t, j, f);
    }
  }

  lemma MapHead<T, U>(x: T, s: seq<T>, f: T -> U)
    ensures Map([x] + s, f) == [f(x)] + Map(s, f)
  {
  }

  lemma KeptHead<T, U>(x: T, s: seq<T>, f: T -> Option<U>)
    requires f(x).Some?
    ensures Collect([x] + s, f) == [f(x).value] + Collect(s, f)
  {
    assert ([x] + s)[1..] == s;
  }

  lemma MapCons<T, U>(x: T, s: seq<T>, f: T -> U)
    ensures multiset(Map([x] + s, f)) == multiset{f(x)} + multiset(Map(s, f))
  {
    assert ([x] + s)[1..] == s;
  }

  /** The originals of an element's result: the element's own and those of the rest. */
  lemma MappedHead<T, U>(s: seq<T>, f: T -> Option<U>, of: U -> T)
    requires s != []
    ensures multiset(Map(Collect(s, f), of)) ==
            Original(f(s[0]), of) + multiset(Map(Collect(s[1..], f), of))
  {
    match f(s[0])
    case Some(u) => MapCons(u, Collect(s[1..], f), of);
    case None =>
  }

  lemma MultisetHead<T>(s: seq<T>)
    requires s != []
    ensures multiset(s) == multiset{s[0]} + multiset(s[1..])
  {
    assert s == [s[0]] + s[1..];
  }

  /** Two tallies, each one step ahead of its rest, add up when the steps and the rests do. */
  lemma Tallied<T>(a: multiset<T>, b: multiset<T>, c: multiset<T>, d: multiset<T>, head: multiset<T>, rest: multiset<T>)
    requires a + c == head && b + d == rest
    ensures (a + b) + (c + d) == head + rest
  {
    assert (a + b) + (c + d) == (a + c) + (b + d);
  }

  /** The original of a result, if there is one. */
  function Original<T, U>(r: Option<U>, of: U -> T): multiset<T> {
    match r case Some(u) => multiset{of(u)} case None => multiset{}
  }

  lemma OneOriginal<T, U, V>(x: T, u: Option<U>, v: Option<V>, ofU: U -> T, ofV: V -> T)
    requires (u.Some? && v.None? && ofU(u.value) == x) || (u.None? && v.Some? && ofV(v.value) == x)
    ensures Original(u, ofU) + Original(v, ofV) == multiset{x}
  {
  }

  /** When each element has exactly one of two results, the results of both kinds account for every element. */
  lemma {:induction false} Partition<T(!new), U, V>(s: seq<T>, f: T -> Option<U>, g: T -> Option<V>, ofU: U -> T, ofV: V -> T)
    requires forall x | x in s ::
               (f(x).Some? && g(x).None? && ofU(f(x).value) == x) || (f(x).None? && g(x).Some? && ofV(g(x).value) == x)
    ensures multiset(Map(Collect(s, f), ofU)) + multiset(Map(Collect(s, g), ofV)) == multiset(s)
  {
    if s != [] {
      Partition(s[1..], f, g, ofU, ofV);
      MultisetHead(s);
      MappedHead(s, f, ofU);
      MappedHead(s, g, ofV);
      OneOriginal(s[0], f(s[0]), g(s[0]), ofU, ofV);
      Tallied(Original(f(s[0]), ofU), multiset(Map(Collect(s[1..], f), ofU)),
              Original(g(s[0]), ofV), multiset(Map(Collect(s[1..], g), ofV)), multiset{s[0]}, multiset(s[1..]));
    }
  }

  lemma {:induction false} CollectCongruent<T, U>(s: seq<T>, f: T -> Option<U>, g: T -> Option<U>)
    requires forall x | x in s :: f(x) == g(x)
    ensures Collect(s, f) == Collect(s, g)
  {
    if s != [] {
      assert s[0] in s;
      CollectCongruent(s[1..], f, g);
    }
  }

  function Compose<T, U, V>(f: T -> Option<U>, g: U -> Option<V>): T -> Option<V> {
    x => match f(x) case Some(u) => g(u) case None => None
  }

  /** Collecting twice is collecting the composed test. */
  lemma {:induction false} CollectTwice<T, U, V>(s: seq<T>, f: T -> Option<U>, g: U -> Option<V>)
    ensures Collect(Collect(s, f), g) == Collect(s, Compose(f, g))
  {
    if s != [] {
      CollectTwice(s[1..], f, g);
      if f(s[0]).Some? {
        assert Collect(s, f)[1..] == Collect(s[1..], f);
      }
    }
  }

  lemma FilterSnoc<T>(s: seq<T>, i: nat, p: T -> bool)
    requires i < |s|
    ensures Filter(s[..i + 1], p) == Filter(s[..i], p) + if p(s[i]) then [s[i]] else []
  {
    assert s[..i + 1] == s[..i] + [s[i]];
    FilterConcat(s[..i], [s[i]], p);
    assert [s[i]][1..] == [];
  }

  /** Filtering a longer stretch only adds at the end. */
  lemma FilterPrefix<T>(s: seq<T>, i: nat, p: T -> bool)
    requires i <= |s|
    ensures Filter(s[..i], p) <= Filter(s, p)
  {
    assert s == s[..i] + s[i..];
    FilterConcat(s[..i], s[i..], p);
  }
}
