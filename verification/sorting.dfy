/**
 * `Array.prototype.sort` with a comparator `(a, b) => key(b) - key(a)`: the
 * sort is stable, so its result is fully determined; it is modelled as a
 * stable insertion sort into descending key order.
 */
module Sorting {

  /** Non-increasing by `key`. */
  predicate Descending<T>(s: seq<T>, key: T -> int) {
    forall i, j | 0 <= i < j < |s| :: key(s[i]) >= key(s[j])
  }

  /** `a` is `b` with some elements dropped, the rest kept in order. */
  predicate IsSubseq<T(==)>(a: seq<T>, b: seq<T>)
    decreases |b|
  {
    if a == [] then true
    else if b == [] then false
    else if a[0] == b[0] then IsSubseq(a[1..], b[1..])
    else IsSubseq(a, b[1..])
  }

  /** Every key in `s` is at most `b`. */
  predicate AllAtMost<T>(s: seq<T>, key: T -> int, b: int) {
    forall k | 0 <= k < |s| :: key(s[k]) <= b
  }

  /** A bound on the keys carries over to any rearrangement with one more element under it. */
  lemma AtMostOfMultiset<T>(t: seq<T>, s: seq<T>, x: T, key: T -> int, b: int)
    requires multiset(t) == multiset(s) + multiset{x}
    requires AllAtMost(s, key, b) && key(x) <= b
    ensures AllAtMost(t, key, b)
  {
    forall k | 0 <= k < |t| ensures key(t[k]) <= b {
      assert t[k] in multiset(t);
      if t[k] != x {
        assert t[k] in multiset(s);
        var m :| 0 <= m < |s| && s[m] == t[k];
      }
    }
  }

  /** Puts `x` in front of the first element whose key is not larger than its own. */
  function Insert<T>(x: T, s: seq<T>, key: T -> int): (r: seq<T>)
    ensures multiset(r) == multiset(s) + multiset{x}
    ensures Descending(s, key) ==> Descending(r, key)
  {
    if s == [] || key(s[0]) <= key(x) then [x] + s
    else
      var t := Insert(x, s[1..], key);
      assert s == [s[0]] + s[1..];
      assert Descending(s, key) ==> AllAtMost(t, key, key(s[0])) by {
        if Descending(s, key) {
          AtMostOfMultiset(t, s[1..], x, key, key(s[0]));
        }
      }
      [s[0]] + t
  }

  /** The stable sort, newest (largest key) first. */
  function SortDesc<T>(s: seq<T>, key: T -> int): (r: seq<T>)
    ensures Descending(r, key)
    ensures multiset(r) == multiset(s)
    ensures |r| == |s|
  {
    if s == [] then []
    else
      assert s == [s[0]] + s[1..];
      Insert(s[0], SortDesc(s[1..], key), key)
  }

  /** Sorting an already sorted sequence changes nothing. */
  lemma {:induction false} SortDescOfDescending<T>(s: seq<T>, key: T -> int)
    requires Descending(s, key)
    ensures SortDesc(s, key) == s
  {
    if s != [] {
      assert Descending(s[1..], key);
      SortDescOfDescending(s[1..], key);
    }
  }

  /** The first element of a sorted sequence has the largest key. */
  lemma FirstIsLargest<T>(s: seq<T>, key: T -> int, x: T)
    requires Descending(s, key) && x in s
    ensures key(s[0]) >= key(x)
  {
    var i :| 0 <= i < |s| && s[i] == x;
  }

  /** Every element of a subsequence is an element of the whole. */
  lemma {:induction false} SubseqMembers<T>(a: seq<T>, b: seq<T>)
    requires IsSubseq(a, b)
    ensures forall x | x in a :: x in b
    decreases |b|
  {
    if a != [] && b != [] {
      if a[0] == b[0] {
        SubseqMembers(a[1..], b[1..]);
        forall x | x in a ensures x in b {
          if x != a[0] { assert x in a[1..]; assert x in b[1..]; }
        }
      } else {
        SubseqMembers(a, b[1..]);
      }
    }
  }

  /** Dropping elements keeps a sorted sequence sorted. */
  lemma {:induction false} SubseqKeepsDescending<T>(a: seq<T>, b: seq<T>, key: T -> int)
    requires IsSubseq(a, b) && Descending(b, key)
    ensures Descending(a, key)
    decreases |b|
  {
    if a != [] && b != [] {
      assert Descending(b[1..], key);
      if a[0] == b[0] {
        SubseqKeepsDescending(a[1..], b[1..], key);
        SubseqMembers(a[1..], b[1..]);
        forall i, j | 0 <= i < j < |a| ensures key(a[i]) >= key(a[j]) {
          if i == 0 {
            assert a[j] in a[1..];
            var m :| 0 <= m < |b[1..]| && b[1..][m] == a[j];
            assert b[m + 1] == a[j];
          } else {
            assert a[i] == a[1..][i - 1] && a[j] == a[1..][j - 1];
          }
        }
      } else {
        SubseqKeepsDescending(a, b[1..], key);
      }
    }
  }
}
