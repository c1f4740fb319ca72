/**
 * Sequence queries the stores are read through: first match (`findOne`,
 * `Array.prototype.find`), counting (`countDocuments`), filtering (`find`,
 * `Array.prototype.filter`) and newest-first ordering (`sort({createdAt: -1})`).
 */
module Seqs {
  import opened Common

  /** The index of the first element satisfying `p`, or None when no element does. */
  function FirstIndex<T>(s: seq<T>, p: T -> bool): (r: Option<nat>)
    ensures r.Some? ==> r.value < |s| && p(s[r.value])
    ensures r.Some? ==> forall j :: 0 <= j < r.value ==> !p(s[j])
    ensures r.None? <==> forall j :: 0 <= j < |s| ==> !p(s[j])
  {
    if |s| == 0 then None
    else if p(s[0]) then Some(0)
    else match FirstIndex(s[1..], p)
      case None => None
      case Some(k) => Some(k + 1)
  }

  /** Two sequences that agree on `p` position by position have the same first match. */
  lemma FirstIndexAgree<T>(s: seq<T>, t: seq<T>, p: T -> bool)
    requires |s| == |t|
    requires forall j :: 0 <= j < |s| ==> p(s[j]) == p(t[j])
    ensures FirstIndex(s, p) == FirstIndex(t, p)
  {
  }

  /** The number of elements satisfying `p`. */
  function CountWhere<T>(s: seq<T>, p: T -> bool): (n: nat)
    ensures n <= |s|
    ensures n == 0 <==> forall i :: 0 <= i < |s| ==> !p(s[i])
  {
    if |s| == 0 then 0
    else CountWhere(s[..|s| - 1], p) + (if p(s[|s| - 1]) then 1 else 0)
  }

  /** When every element satisfying `p` satisfies exactly one of `q1`, `q2`, the counts add up. */
  lemma {:induction false} CountPartition<T>(s: seq<T>, p: T -> bool, q1: T -> bool, q2: T -> bool)
    requires forall x :: p(x) <==> q1(x) || q2(x)
    requires forall x :: !(q1(x) && q2(x))
    ensures CountWhere(s, p) == CountWhere(s, q1) + CountWhere(s, q2)
  {
    if |s| > 0 {
      CountPartition(s[..|s| - 1], p, q1, q2);
    }
  }

  /** Counting a condition every element meets counts every element. */
  lemma {:induction false} CountAll<T>(s: seq<T>)
    ensures CountWhere(s, (x: T) => true) == |s|
  {
    if |s| > 0 {
      CountAll(s[..|s| - 1]);
    }
  }

  /** Counting a weaker condition never gives fewer elements. */
  lemma {:induction false} CountMonotone<T>(s: seq<T>, p: T -> bool, q: T -> bool)
    requires forall x :: p(x) ==> q(x)
    ensures CountWhere(s, p) <= CountWhere(s, q)
  {
    if |s| > 0 {
      CountMonotone(s[..|s| - 1], p, q);
    }
  }

  /** Two sequences that agree on their conditions position by position have equal counts. */
  lemma {:induction false} CountAgree<T, U>(s: seq<T>, t: seq<U>, p: T -> bool, q: U -> bool)
    requires |s| == |t|
    requires forall i :: 0 <= i < |s| ==> p(s[i]) == q(t[i])
    ensures CountWhere(s, p) == CountWhere(t, q)
  {
    if |s| > 0 {
      var n := |s| - 1;
      CountAgree(s[..n], t[..n], p, q);
    }
  }

  /** The elements satisfying `p`, in their original order. */
  function Filter<T(!new)>(s: seq<T>, p: T -> bool): (r: seq<T>)
    ensures |r| == CountWhere(s, p)
    ensures forall i :: 0 <= i < |r| ==> p(r[i])
    ensures forall x :: x in r <==> x in s && p(x)
  {
    if |s| == 0 then []
    else
      var init := s[..|s| - 1];
      assert s == init + [s[|s| - 1]];
      Filter(init, p) + (if p(s[|s| - 1]) then [s[|s| - 1]] else [])
  }

  /** `s` backwards: the newest element of an append-only log first. */
  function Reverse<T>(s: seq<T>): (r: seq<T>)
    ensures |r| == |s|
    ensures forall i :: 0 <= i < |s| ==> r[i] == s[|s| - 1 - i]
  {
    if |s| == 0 then [] else [s[|s| - 1]] + Reverse(s[..|s| - 1])
  }

  /** Reversing keeps exactly the same elements. */
  lemma ReverseSameElements<T>(s: seq<T>)
    ensures forall x :: x in Reverse(s) <==> x in s
  {
    forall x | x in s
      ensures x in Reverse(s)
    {
      var i :| 0 <= i < |s| && s[i] == x;
      assert Reverse(s)[|s| - 1 - i] == x;
    }
  }

  /** `r` is the last `|r|` elements of `s`, read backwards. */
  ghost predicate NewestOf<T>(r: seq<T>, s: seq<T>)
  {
    |r| <= |s| && forall i :: 0 <= i < |r| ==> r[i] == s[|s| - 1 - i]
  }

  /** At most `n` of the most recently appended elements, newest first. */
  function Newest<T>(s: seq<T>, n: nat): (r: seq<T>)
    ensures |r| == Min(n, |s|)
    ensures forall i :: 0 <= i < |r| ==> r[i] == s[|s| - 1 - i]
    ensures NewestOf(r, s)
  {
    Reverse(s)[..Min(n, |s|)]
  }

  /** The positions of the elements satisfying `p`, last position first. */
  function PositionsWhere<T>(s: seq<T>, p: T -> bool): (r: seq<nat>)
    ensures |r| == CountWhere(s, p)
    ensures forall i :: 0 <= i < |r| ==> r[i] < |s| && p(s[r[i]])
    ensures forall k :: 0 <= k < |s| && p(s[k]) ==> k in r
  {
    if |s| == 0 then []
    else
      var n := |s| - 1;
      var rest := PositionsWhere(s[..n], p);
      if p(s[n]) then [n] + rest else rest
  }

  /** Positions strictly last first. */
  predicate Descending(r: seq<nat>)
  {
    forall i, j :: 0 <= i < j < |r| ==> r[i] > r[j]
  }

  lemma {:induction false} PositionsDescending<T>(s: seq<T>, p: T -> bool)
    ensures Descending(PositionsWhere(s, p))
  {
    if |s| > 0 {
      var n := |s| - 1;
      PositionsDescending(s[..n], p);
      var rest := PositionsWhere(s[..n], p);
      if p(s[n]) {
        ConsDescending(n, rest);
        assert PositionsWhere(s, p) == [n] + rest;
      } else {
        assert PositionsWhere(s, p) == rest;
      }
    }
  }

  /** A position above all others keeps a descending sequence descending when put in front. */
  lemma ConsDescending(n: nat, rest: seq<nat>)
    requires Descending(rest)
    requires forall i :: 0 <= i < |rest| ==> rest[i] < n
    ensures Descending([n] + rest)
  {
    var r := [n] + rest;
    forall i, j | 0 <= i < j < |r|
      ensures r[i] > r[j]
    {
      assert r[j] == rest[j - 1];
      if i > 0 {
        assert r[i] == rest[i - 1];
      }
    }
  }

  ghost predicate StrictlyIncreasing<T>(s: seq<T>, key: T -> int)
  {
    forall i, j :: 0 <= i < j < |s| ==> key(s[i]) < key(s[j])
  }

  ghost predicate StrictlyDecreasing<T>(s: seq<T>, key: T -> int)
  {
    forall i, j :: 0 <= i < j < |s| ==> key(s[i]) > key(s[j])
  }

  /** Filtering keeps the relative order of what it keeps. */
  lemma {:induction false} FilterKeepsOrder<T(!new)>(s: seq<T>, p: T -> bool, key: T -> int)
    requires StrictlyIncreasing(s, key)
    ensures StrictlyIncreasing(Filter(s, p), key)
  {
    if |s| > 0 {
      var init := s[..|s| - 1];
      var last := s[|s| - 1];
      FilterKeepsOrder(init, p, key);
      var f := Filter(init, p);
      forall i | 0 <= i < |f|
        ensures key(f[i]) < key(last)
      {
        assert f[i] in init;
        var k :| 0 <= k < |init| && init[k] == f[i];
        assert init[k] == s[k];
      }
    }
  }

  /** Reading an increasing log backwards gives a decreasing one. */
  lemma ReverseFlipsOrder<T>(s: seq<T>, key: T -> int)
    requires StrictlyIncreasing(s, key)
    ensures StrictlyDecreasing(Reverse(s), key)
  {
  }
}
