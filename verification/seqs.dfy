/**
 Sequence helpers standing in for the Java collections the adapter uses:
 `new HashSet<>(list)` becomes `Dedup`, and the "for each element, add its
 image to a list" loops become `MapSeq`. Because a `HashSet` enumerates in an
 unspecified order, the lemmas here show that every duplicate-free
 enumeration of the same set yields the same multiset of images.
 */
module Seqs {

  /** The set of values occurring in `s`. */
  function Elements<T>(s: seq<T>): set<T> {
    set x | x in s
  }

  predicate NoDup<T(==)>(s: seq<T>) {
    forall i, j :: 0 <= i < j < |s| ==> s[i] != s[j]
  }

  /** One enumeration of the set of values in `s`: each distinct value exactly once. */
  function Dedup<T(==)>(s: seq<T>): (r: seq<T>)
    ensures NoDup(r)
    ensures Elements(r) == Elements(s)
    decreases |s|
  {
    if s == [] then []
    else
      var rest := Dedup(s[1..]);
      ElementsCons(s[0], s[1..]);
      assert s == [s[0]] + s[1..];
      if s[0] in s[1..] then rest
      else
        ElementsCons(s[0], rest);
        NoDupCons(s[0], rest);
        [s[0]] + rest
  }

  lemma ElementsCons<T>(x: T, t: seq<T>)
    ensures Elements([x] + t) == {x} + Elements(t)
  {
  }

  lemma NoDupCons<T>(x: T, t: seq<T>)
    requires NoDup(t) && x !in t
    ensures NoDup([x] + t)
  {
  }

  /** The images of the elements of `s` under `f`, position by position. */
  function MapSeq<A, B>(f: A -> B, s: seq<A>): (r: seq<B>)
    ensures |r| == |s|
    ensures forall i :: 0 <= i < |s| ==> r[i] == f(s[i])
    decreases |s|
  {
    if s == [] then [] else [f(s[0])] + MapSeq(f, s[1..])
  }

  /** A duplicate-free sequence is exactly as long as its set of values is large. */
  lemma {:induction false} NoDupCardinality<T>(s: seq<T>)
    requires NoDup(s)
    ensures |Elements(s)| == |s|
    decreases |s|
  {
    if s != [] {
      var t := s[1..];
      assert NoDup(t) by {
        forall i, j | 0 <= i < j < |t| ensures t[i] != t[j] {
          assert t[i] == s[i + 1] && t[j] == s[j + 1];
        }
      }
      NoDupCardinality(t);
      assert Elements(s) == {s[0]} + Elements(t) by {
        assert s == [s[0]] + t;
      }
      assert s[0] !in Elements(t);
    }
  }

  /** Every value of a duplicate-free sequence occurs in it exactly once. */
  lemma {:induction false} NoDupMultiplicity<T>(s: seq<T>, x: T)
    requires NoDup(s)
    ensures multiset(s)[x] == if x in s then 1 else 0
    decreases |s|
  {
    if s != [] {
      var t := s[1..];
      assert s == [s[0]] + t;
      assert NoDup(t) by {
        forall i, j | 0 <= i < j < |t| ensures t[i] != t[j] {
          assert t[i] == s[i + 1] && t[j] == s[j + 1];
        }
      }
      NoDupMultiplicity(t, x);
      assert s[0] !in t;
    }
  }

  /** Two duplicate-free enumerations of the same set are permutations of each other. */
  lemma {:induction false} SameElementsPermutation<T>(a: seq<T>, b: seq<T>)
    requires NoDup(a) && NoDup(b)
    requires Elements(a) == Elements(b)
    ensures multiset(a) == multiset(b)
  {
    forall x ensures multiset(a)[x] == multiset(b)[x] {
      NoDupMultiplicity(a, x);
      NoDupMultiplicity(b, x);
      assert x in a <==> x in Elements(a);
      assert x in b <==> x in Elements(b);
    }
  }

  /** Removing the element at position `k` removes one occurrence of it. */
  lemma RemoveAtMultiset<T>(b: seq<T>, k: nat)
    requires k < |b|
    ensures multiset(b[..k] + b[k + 1..]) == multiset(b) - multiset{b[k]}
  {
    assert b == b[..k] + [b[k]] + b[k + 1..];
    assert multiset(b) == multiset(b[..k]) + multiset{b[k]} + multiset(b[k + 1..]);
  }

  lemma MapSeqConcat<A, B>(f: A -> B, u: seq<A>, v: seq<A>)
    ensures MapSeq(f, u + v) == MapSeq(f, u) + MapSeq(f, v)
  {
  }

  /** Taking one element out of the middle takes its image out of the mapped multiset. */
  lemma MapSeqMiddle<A, B>(f: A -> B, u: seq<A>, x: A, v: seq<A>)
    ensures multiset(MapSeq(f, u + [x] + v)) == multiset(MapSeq(f, u + v)) + multiset{f(x)}
  {
    MapSeqConcat(f, u + [x], v);
    MapSeqConcat(f, u, [x]);
    MapSeqConcat(f, u, v);
  }

  /** Putting one more element into two mapped permutations keeps them permutations. */
  lemma {:induction false} PermutationMapStep<A, B>(f: A -> B, x: A, t: seq<A>, u: seq<A>, v: seq<A>)
    requires multiset(MapSeq(f, t)) == multiset(MapSeq(f, u + v))
    ensures multiset(MapSeq(f, [x] + t)) == multiset(MapSeq(f, u + [x] + v))
  {
    MapSeqMiddle(f, u, x, v);
    assert MapSeq(f, [x] + t) == [f(x)] + MapSeq(f, t);
  }

  /** Mapping preserves the permutation relation. */
  lemma {:induction false} PermutationMap<A, B>(f: A -> B, a: seq<A>, b: seq<A>)
    requires multiset(a) == multiset(b)
    ensures multiset(MapSeq(f, a)) == multiset(MapSeq(f, b))
    decreases |a|
  {
    if a == [] {
      assert |b| == |multiset(b)| == 0;
    } else {
      var x, t := a[0], a[1..];
      assert a == [x] + t;
      var k := IndexOf(b, x);
      var u, v := b[..k], b[k + 1..];
      assert b == u + [x] + v;
      RemoveAtMultiset(b, k);
      PermutationMap(f, t, u + v);
      PermutationMapStep(f, x, t, u, v);
    }
  }

  /** A position holding `x`, for an `x` known to occur in `b`. */
  lemma IndexOf<T>(b: seq<T>, x: T) returns (k: nat)
    requires x in multiset(b)
    ensures k < |b| && b[k] == x
  {
    assert x in b;
    k :| 0 <= k < |b| && b[k] == x;
  }

  /** Any two duplicate-free enumerations of one set have the same multiset of images. */
  lemma {:induction false} EnumerationIndependence<A, B>(f: A -> B, a: seq<A>, b: seq<A>)
    requires NoDup(a) && NoDup(b)
    requires Elements(a) == Elements(b)
    ensures multiset(MapSeq(f, a)) == multiset(MapSeq(f, b))
  {
    SameElementsPermutation(a, b);
    PermutationMap(f, a, b);
  }
}
