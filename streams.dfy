/** The java.util.stream operations of the service: map, distinct and limit. */
module Streams {

  /** Stream.map(f). */
  function MapSeq<A, B>(f: A -> B, s: seq<A>): (r: seq<B>)
    ensures |r| == |s|
    ensures forall i :: 0 <= i < |s| ==> r[i] == f(s[i])
  {
    if s == [] then [] else [f(s[0])] + MapSeq(f, s[1..])
  }

  predicate NoDuplicates<T(==)>(s: seq<T>) {
    forall i, j :: 0 <= i < j < |s| ==> s[i] != s[j]
  }

  /** Stream.distinct() run over s after the elements of seen have passed. */
  function DistinctFrom<T(==)>(s: seq<T>, seen: set<T>): (r: seq<T>)
    ensures forall i :: 0 <= i < |r| ==> r[i] in s && r[i] !in seen
    ensures forall i :: 0 <= i < |s| && s[i] !in seen ==> s[i] in r
    ensures NoDuplicates(r)
  {
    if s == [] then []
    else if s[0] in seen then DistinctFrom(s[1..], seen)
    else [s[0]] + DistinctFrom(s[1..], seen + {s[0]})
  }

  /** Stream.distinct() on an ordered stream: the first occurrence of each element is kept. */
  function Distinct<T(==)>(s: seq<T>): (r: seq<T>)
    ensures forall i :: 0 <= i < |r| ==> r[i] in s
    ensures forall i :: 0 <= i < |s| ==> s[i] in r
    ensures NoDuplicates(r)
  {
    DistinctFrom(s, {})
  }

  /** Reference definition: position k of s is kept exactly when s[k] does not occur in s[..k]. */
  function FirstOccurrences<T(==)>(s: seq<T>): seq<T> {
    if s == [] then []
    else
      var n := |s| - 1;
      FirstOccurrences(s[..n]) + (if s[n] in s[..n] then [] else [s[n]])
  }

  /** Stream.limit(n). */
  function Limit<T>(s: seq<T>, n: nat): (r: seq<T>)
    ensures |r| == if |s| <= n then |s| else n
    ensures r == s[..|r|]
  {
    if |s| <= n then s else s[..n]
  }

  /** a can be obtained from b by deleting elements, keeping the order of the rest. */
  predicate IsSubsequence<T(==)>(a: seq<T>, b: seq<T>)
    decreases |b|
  {
    a == [] || (b != [] && ((a[0] == b[0] && IsSubsequence(a[1..], b[1..])) || IsSubsequence(a, b[1..])))
  }

  /** Appending one element to the input of distinct appends it to the output iff it is new. */
  lemma {:induction false} DistinctFromSnoc<T>(s: seq<T>, x: T, seen: set<T>)
    ensures DistinctFrom(s + [x], seen) == DistinctFrom(s, seen) + (if x in seen || x in s then [] else [x])
    decreases |s|
  {
    if s == [] {
      assert [x][1..] == [];
    } else {
      assert (s + [x])[0] == s[0];
      assert (s + [x])[1..] == s[1..] + [x];
      if s[0] in seen {
        DistinctFromSnoc(s[1..], x, seen);
      } else {
        DistinctFromSnoc(s[1..], x, seen + {s[0]});
      }
    }
  }

  /** distinct keeps exactly the first occurrences, in their order. */
  lemma {:induction false} DistinctIsFirstOccurrences<T>(s: seq<T>)
    ensures Distinct(s) == FirstOccurrences(s)
    decreases |s|
  {
    if s != [] {
      var n := |s| - 1;
      DistinctIsFirstOccurrences(s[..n]);
      assert s == s[..n] + [s[n]];
      DistinctFromSnoc(s[..n], s[n], {});
    }
  }

  /** The output of distinct is a subsequence of its input. */
  lemma {:induction false} DistinctFromIsSubsequence<T>(s: seq<T>, seen: set<T>)
    ensures IsSubsequence(DistinctFrom(s, seen), s)
    decreases |s|
  {
    if s != [] {
      if s[0] in seen {
        DistinctFromIsSubsequence(s[1..], seen);
      } else {
        var rest := DistinctFrom(s[1..], seen + {s[0]});
        DistinctFromIsSubsequence(s[1..], seen + {s[0]});
        assert ([s[0]] + rest)[1..] == rest;
      }
    }
  }

  /** Every prefix of a subsequence of b is a subsequence of b. */
  lemma {:induction false} PrefixOfSubsequence<T>(a: seq<T>, b: seq<T>, k: nat)
    requires IsSubsequence(a, b) && k <= |a|
    ensures IsSubsequence(a[..k], b)
    decreases |b|
  {
    if k > 0 {
      if a[0] == b[0] && IsSubsequence(a[1..], b[1..]) {
        PrefixOfSubsequence(a[1..], b[1..], k - 1);
        assert a[..k][1..] == a[1..][..k - 1];
      } else {
        PrefixOfSubsequence(a, b[1..], k);
      }
    }
  }

  /** A sequence without duplicates has as many elements as its set of elements. */
  lemma {:induction false} NoDuplicatesCardinality<T>(s: seq<T>)
    requires NoDuplicates(s)
    ensures |set x | x in s| == |s|
    decreases |s|
  {
    if s == [] {
      assert (set x | x in s) == {};
    } else {
      NoDuplicatesCardinality(s[1..]);
      assert (set x | x in s) == {s[0]} + (set x | x in s[1..]);
      assert s[0] !in (set x | x in s[1..]);
    }
  }

  /** distinct yields one element per distinct input element. */
  lemma DistinctLength<T>(s: seq<T>)
    ensures |Distinct(s)| == |set x | x in s|
  {
    var r := Distinct(s);
    NoDuplicatesCardinality(r);
    assert (set x | x in r) == (set x | x in s);
  }
}
