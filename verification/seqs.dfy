/** Order-preserving filtering of sequences (`Array.prototype.filter`, `String.prototype.replace`
    with a character-class pattern and the empty replacement). */
module Seqs {

  /** `r` can be obtained from `s` by deleting elements, keeping the order of the rest. */
  ghost predicate IsSubsequence<T>(r: seq<T>, s: seq<T>)
    decreases |s|
  {
    && |r| <= |s|
    && (|r| == 0 || (r[0] == s[0] && IsSubsequence(r[1..], s[1..])) || IsSubsequence(r, s[1..]))
  }

  /** The elements of `s` that satisfy `p`, in their original order. */
  function Filter<T>(s: seq<T>, p: T -> bool): (r: seq<T>)
    ensures |r| <= |s|
    ensures forall i :: 0 <= i < |r| ==> p(r[i])
    ensures (forall i :: 0 <= i < |s| ==> p(s[i])) ==> r == s
  {
    if |s| == 0 then []
    else if p(s[0]) then [s[0]] + Filter(s[1..], p)
    else Filter(s[1..], p)
  }

  /** A filter keeps exactly the elements that satisfy the predicate, in their original order. */
  lemma {:induction false} FilterMembers<T>(s: seq<T>, p: T -> bool)
    ensures forall i :: 0 <= i < |Filter(s, p)| ==> Filter(s, p)[i] in s
    ensures forall i :: 0 <= i < |s| && p(s[i]) ==> s[i] in Filter(s, p)
    ensures IsSubsequence(Filter(s, p), s)
    decreases |s|
  {
    if |s| > 0 {
      var tail := s[1..];
      FilterMembers(tail, p);
      var r := Filter(s, p);
      var rt := Filter(tail, p);
      forall i | 0 <= i < |s| && p(s[i]) ensures s[i] in r {
        if i > 0 {
          assert s[i] == tail[i - 1];
        }
      }
      if p(s[0]) {
        assert r == [s[0]] + rt && r[1..] == rt;
        forall i | 0 <= i < |r| ensures r[i] in s {
          if i > 0 {
            assert r[i] == rt[i - 1];
          }
        }
      }
    }
  }

  /** Every element a filter keeps has each property that all elements of `s` have. */
  lemma FilterKeeps<T>(s: seq<T>, p: T -> bool, q: T -> bool)
    requires forall i :: 0 <= i < |s| ==> q(s[i])
    ensures forall i :: 0 <= i < |Filter(s, p)| ==> q(Filter(s, p)[i])
  {
    FilterMembers(s, p);
    var r := Filter(s, p);
    forall i | 0 <= i < |r| ensures q(r[i]) {
      var k :| 0 <= k < |s| && s[k] == r[i];
    }
  }

  /** Filtering distributes over concatenation. */
  lemma {:induction false} FilterConcat<T>(a: seq<T>, b: seq<T>, p: T -> bool)
    ensures Filter(a + b, p) == Filter(a, p) + Filter(b, p)
    decreases |a|
  {
    if |a| == 0 {
      assert a + b == b;
    } else {
      assert (a + b)[1..] == a[1..] + b;
      FilterConcat(a[1..], b, p);
    }
  }

  /** Filtering twice with the same predicate is filtering once. */
  lemma FilterIdempotent<T>(s: seq<T>, p: T -> bool)
    ensures Filter(Filter(s, p), p) == Filter(s, p)
  {
    var r := Filter(s, p);
    assert forall i :: 0 <= i < |r| ==> p(r[i]);
  }

  /** The number of elements of `s` that satisfy `p`. */
  function Count<T>(s: seq<T>, p: T -> bool): (n: nat)
    ensures n <= |s|
  {
    if |s| == 0 then 0 else (if p(s[0]) then 1 else 0) + Count(s[1..], p)
  }

  /** A filter keeps exactly as many elements as satisfy the predicate. */
  lemma {:induction false} FilterLength<T>(s: seq<T>, p: T -> bool)
    ensures |Filter(s, p)| == Count(s, p)
    decreases |s|
  {
    if |s| > 0 {
      FilterLength(s[1..], p);
    }
  }

  /** A filter of a sequence ordered by `lt` is ordered by `lt`. */
  lemma {:induction false} FilterOrdered<T>(s: seq<T>, p: T -> bool, lt: (T, T) -> bool)
    requires forall i, j :: 0 <= i < j < |s| ==> lt(s[i], s[j])
    ensures forall i, j :: 0 <= i < j < |Filter(s, p)| ==> lt(Filter(s, p)[i], Filter(s, p)[j])
    decreases |s|
  {
    if |s| > 0 {
      var tail := s[1..];
      FilterOrdered(tail, p, lt);
      FilterMembers(tail, p);
      var r := Filter(s, p);
      var rt := Filter(tail, p);
      if p(s[0]) {
        assert r == [s[0]] + rt;
        forall i, j | 0 < i < j < |r| ensures lt(r[i], r[j]) {
          assert r[i] == rt[i - 1] && r[j] == rt[j - 1];
        }
        forall j | 0 < j < |r| ensures lt(r[0], r[j]) {
          assert r[j] == rt[j - 1];
          assert rt[j - 1] in tail;
          var k :| 0 <= k < |tail| && tail[k] == rt[j - 1];
          assert tail[k] == s[k + 1];
        }
      } else {
        assert r == rt;
        forall i, j | 0 <= i < j < |r| ensures lt(r[i], r[j]) {
          assert r[i] == rt[i] && r[j] == rt[j];
        }
      }
    }
  }
}
