/** Order does not matter: mapping, removing duplicates and adding up, under permutation. */
module Sequences {

  function FlatMap<A, B>(s: seq<A>, f: A -> seq<B>): seq<B> {
    if s == [] then [] else FlatMap(s[..|s| - 1], f) + f(s[|s| - 1])
  }

  lemma {:induction false} FlatMapAppend<A, B>(s: seq<A>, x: A, f: A -> seq<B>)
    ensures FlatMap(s + [x], f) == FlatMap(s, f) + f(x)
  {
    assert (s + [x])[..|s|] == s;
  }

  lemma {:induction false} FlatMapStep<A, B>(s: seq<A>, i: nat, f: A -> seq<B>)
    requires i < |s|
    ensures FlatMap(s[..i + 1], f) == FlatMap(s[..i], f) + f(s[i])
  {
    assert s[..i + 1][..i] == s[..i];
  }

  lemma {:induction false} InFlatMap<A, B>(s: seq<A>, f: A -> seq<B>, y: B)
    ensures y in FlatMap(s, f) <==> exists i :: 0 <= i < |s| && y in f(s[i])
  {
    if s != [] { InFlatMap(s[..|s| - 1], f, y); }
  }

  function Without<A>(s: seq<A>, i: nat): seq<A>
    requires i < |s|
  {
    s[..i] + s[i + 1..]
  }

  lemma {:induction false} WithoutBefore<A>(s: seq<A>, i: nat)
    requires i < |s| - 1
    ensures Without(s, i) == Without(s[..|s| - 1], i) + [s[|s| - 1]]
  {
  }

  lemma {:induction false} FlatMapToBack<A, B>(s: seq<A>, f: A -> seq<B>)
    requires s != []
    ensures FlatMap(s, f) == FlatMap(s[..|s| - 1], f) + f(s[|s| - 1])
  {
  }

  lemma {:induction false} FlatMapWithout<A, B>(s: seq<A>, i: nat, f: A -> seq<B>)
    requires i < |s|
    ensures multiset(FlatMap(s, f)) == multiset(FlatMap(Without(s, i), f)) + multiset(f(s[i]))
  {
    var n := |s| - 1;
    if i == n {
      assert Without(s, n) == s[..n];
    } else {
      hide FlatMap, Without;
      FlatMapWithout(s[..n], i, f);
      FlatMapToBack(s, f);
      WithoutBefore(s, i);
      FlatMapAppend(Without(s[..n], i), s[n], f);
    }
  }

  lemma {:induction false} WithoutIs<A>(s: seq<A>, i: nat)
    requires i < |s|
    ensures multiset(s) == multiset(Without(s, i)) + multiset{s[i]}
  {
    assert s == s[..i] + [s[i]] + s[i + 1..];
  }

  lemma {:induction false} CancelOne<A>(a: multiset<A>, b: multiset<A>, x: A)
    requires a + multiset{x} == b + multiset{x}
    ensures a == b
  {
    assert a == (a + multiset{x}) - multiset{x};
    assert b == (b + multiset{x}) - multiset{x};
  }

  lemma {:induction false} WithoutLast<A>(s: seq<A>, t: seq<A>) returns (i: nat)
    requires s != [] && multiset(s) == multiset(t)
    ensures i < |t| && t[i] == s[|s| - 1] && multiset(s[..|s| - 1]) == multiset(Without(t, i))
  {
    var x := s[|s| - 1];
    assert s == s[..|s| - 1] + [x];
    assert x in multiset(t);
    i :| 0 <= i < |t| && t[i] == x;
    WithoutIs(t, i);
    CancelOne(multiset(s[..|s| - 1]), multiset(Without(t, i)), x);
  }

  lemma {:induction false} FlatMapPermutes<A, B>(s: seq<A>, t: seq<A>, f: A -> seq<B>)
    requires multiset(s) == multiset(t)
    ensures multiset(FlatMap(s, f)) == multiset(FlatMap(t, f))
  {
    if s == [] {
      assert multiset(t) == multiset{};
      assert t == [];
    } else {
      var i := WithoutLast(s, t);
      FlatMapPermutes(s[..|s| - 1], Without(t, i), f);
      FlatMapWithout(t, i, f);
    }
  }

  function Sum(s: seq<real>): real {
    if s == [] then 0.0 else Sum(s[..|s| - 1]) + s[|s| - 1]
  }

  lemma {:induction false} SumWithout(s: seq<real>, i: nat)
    requires i < |s|
    ensures Sum(s) == Sum(Without(s, i)) + s[i]
  {
    var n := |s| - 1;
    if i == n {
      assert Without(s, n) == s[..n];
    } else {
      SumWithout(s[..n], i);
      assert Without(s, i) == Without(s[..n], i) + [s[n]];
      assert Without(s, i)[..n - 1] == Without(s[..n], i);
    }
  }

  lemma {:induction false} SumPermutes(s: seq<real>, t: seq<real>)
    requires multiset(s) == multiset(t)
    ensures Sum(s) == Sum(t)
  {
    if s == [] {
      assert multiset(t) == multiset{};
      assert t == [];
    } else {
      var i := WithoutLast(s, t);
      SumPermutes(s[..|s| - 1], Without(t, i));
      SumWithout(t, i);
    }
  }

  /** The keys of a dict, in the order they were first put in. */
  function Dedup<A(==)>(s: seq<A>): seq<A> {
    if s == [] then []
    else
      var (before, x) := (Dedup(s[..|s| - 1]), s[|s| - 1]);
      if x in before then before else before + [x]
  }

  lemma {:induction false} DedupAppend<A>(s: seq<A>, x: A)
    ensures Dedup(s + [x]) == if x in Dedup(s) then Dedup(s) else Dedup(s) + [x]
  {
    assert (s + [x])[..|s|] == s;
  }

  predicate NoDuplicates<A(==)>(s: seq<A>) { forall i, j :: 0 <= i < j < |s| ==> s[i] != s[j] }

  lemma {:induction false} DedupHolds<A>(s: seq<A>)
    ensures NoDuplicates(Dedup(s))
    ensures forall x :: x in Dedup(s) <==> x in s
  {
    if s != [] { DedupHolds(s[..|s| - 1]); }
  }

  lemma {:induction false} DistinctMultiset<A>(s: seq<A>, x: A)
    requires NoDuplicates(s)
    ensures multiset(s)[x] == if x in s then 1 else 0
  {
    if s != [] {
      var n := |s| - 1;
      assert s == s[..n] + [s[n]];
      DistinctMultiset(s[..n], x);
    }
  }

  lemma {:induction false} DedupPermutes<A>(s: seq<A>, t: seq<A>)
    requires multiset(s) == multiset(t)
    ensures multiset(Dedup(s)) == multiset(Dedup(t))
  {
    DedupHolds(s);
    DedupHolds(t);
    SameMembers(s, t);
    var (a, b) := (Dedup(s), Dedup(t));
    forall x ensures multiset(a)[x] == multiset(b)[x] {
      DistinctMultiset(a, x);
      DistinctMultiset(b, x);
      assert x in a <==> x in b;
    }
    assert multiset(a) == multiset(b);
  }

  lemma {:induction false} SameMembers<A>(s: seq<A>, t: seq<A>)
    requires multiset(s) == multiset(t)
    ensures |s| == |t| && forall x :: x in s <==> x in t
  {
    assert |s| == |multiset(s)| && |t| == |multiset(t)|;
    forall x ensures x in s <==> x in t {
      assert x in s <==> x in multiset(s);
      assert x in t <==> x in multiset(t);
    }
  }

  lemma {:induction false} FlatMapAgrees<A, B>(s: seq<A>, f: A -> seq<B>, g: A -> seq<B>)
    requires forall i :: 0 <= i < |s| ==> f(s[i]) == g(s[i])
    ensures FlatMap(s, f) == FlatMap(s, g)
  {
    if s != [] { FlatMapAgrees(s[..|s| - 1], f, g); }
  }

  /** The same keys in another order, mapped by functions that agree on them. */
  lemma {:induction false} FlatMapSame<A, B>(s: seq<A>, t: seq<A>, f: A -> seq<B>, g: A -> seq<B>)
    requires multiset(s) == multiset(t) && forall i :: 0 <= i < |s| ==> f(s[i]) == g(s[i])
    ensures multiset(FlatMap(s, f)) == multiset(FlatMap(t, g))
  {
    FlatMapAgrees(s, f, g);
    FlatMapPermutes(s, t, g);
  }
}
