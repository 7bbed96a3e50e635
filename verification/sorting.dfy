/** Listing the rows of a table in the order of an `ORDER BY` clause. */
module Sorting {

  /** `le` is a total order on the elements of `s`. */
  ghost predicate TotalOrderOn<K(!new)>(le: (K, K) -> bool, s: set<K>) {
    && (forall a, b :: a in s && b in s ==> le(a, b) || le(b, a))
    && (forall a, b :: a in s && b in s && le(a, b) && le(b, a) ==> a == b)
    && (forall a, b, c :: a in s && b in s && c in s && le(a, b) && le(b, c) ==> le(a, c))
  }

  lemma TotalOrderOnSubset<K(!new)>(le: (K, K) -> bool, s: set<K>, t: set<K>)
    requires TotalOrderOn(le, s) && t <= s
    ensures TotalOrderOn(le, t)
  {
  }

  /** A non-empty finite set has a least element. */
  lemma {:induction false} MinimumExists<K(!new)>(s: set<K>, le: (K, K) -> bool)
    requires s != {} && TotalOrderOn(le, s)
    ensures exists m :: m in s && forall x :: x in s ==> le(m, x)
    decreases |s|
  {
    var y :| y in s;
    if s == {y} {
      assert forall x :: x in s ==> x == y;
      assert le(y, y);
    } else {
      var rest := s - {y};
      TotalOrderOnSubset(le, s, rest);
      MinimumExists(rest, le);
      var m :| m in rest && forall x :: x in rest ==> le(m, x);
      if le(y, m) {
        assert forall x :: x in s ==> le(y, x) by {
          forall x | x in s ensures le(y, x) {
            if x != y {
              assert le(m, x);
            } else {
              assert le(y, y);
            }
          }
        }
      } else {
        assert le(m, y);
        assert forall x :: x in s ==> le(m, x);
      }
    }
  }

  /** The least element of `s`. */
  function Minimum<K(!new)>(s: set<K>, le: (K, K) -> bool): (m: K)
    requires s != {} && TotalOrderOn(le, s)
    ensures m in s && forall x :: x in s ==> le(m, x)
  {
    MinimumExists(s, le);
    var m :| m in s && forall x :: x in s ==> le(m, x);
    m
  }

  /** The elements of `s`, each once, listed in increasing `le` order. */
  function SortSet<K(!new)>(s: set<K>, le: (K, K) -> bool): (r: seq<K>)
    requires TotalOrderOn(le, s)
    ensures |r| == |s|
    ensures forall i :: 0 <= i < |r| ==> r[i] in s
    ensures forall x :: x in s ==> x in r
    ensures forall i, j :: 0 <= i < j < |r| ==> le(r[i], r[j]) && r[i] != r[j]
    decreases |s|
  {
    if s == {} then []
    else
      var m := Minimum(s, le);
      var rest := s - {m};
      TotalOrderOnSubset(le, s, rest);
      var tail := SortSet(rest, le);
      SortStep(s, le, m, tail);
      [m] + tail
  }

  /** Putting the least element in front of the sorted rest sorts the whole set. */
  lemma SortStep<K(!new)>(s: set<K>, le: (K, K) -> bool, m: K, tail: seq<K>)
    requires m in s && forall x :: x in s ==> le(m, x)
    requires |tail| == |s - {m}|
    requires forall i :: 0 <= i < |tail| ==> tail[i] in s - {m}
    requires forall x :: x in s - {m} ==> x in tail
    requires forall i, j :: 0 <= i < j < |tail| ==> le(tail[i], tail[j]) && tail[i] != tail[j]
    ensures |[m] + tail| == |s|
    ensures forall i :: 0 <= i < |[m] + tail| ==> ([m] + tail)[i] in s
    ensures forall x :: x in s ==> x in [m] + tail
    ensures forall i, j :: 0 <= i < j < |[m] + tail| ==> le(([m] + tail)[i], ([m] + tail)[j]) && ([m] + tail)[i] != ([m] + tail)[j]
  {
    var r := [m] + tail;
    assert |s - {m}| == |s| - 1;
    assert forall i :: 1 <= i < |r| ==> r[i] == tail[i - 1];
    assert forall x :: x in s ==> x in r by {
      forall x | x in s ensures x in r {
        if x != m {
          assert x in s - {m};
        }
      }
    }
    forall i, j | 0 <= i < j < |r| ensures le(r[i], r[j]) && r[i] != r[j] {
      if i == 0 {
        assert r[j] == tail[j - 1] && tail[j - 1] in s - {m};
      } else {
        assert r[i] == tail[i - 1] && r[j] == tail[j - 1];
      }
    }
  }
}
