/** Generic sequence helpers: filtering (a query's `filter`), prefixes
    (Python's `s[:n]`), first-match search and key uniqueness. */
module Seqs {
  import opened Wrappers

  /** The elements of `xs` that satisfy `keep`, in their original order. */
  function Filter<T(!new)>(xs: seq<T>, keep: T -> bool): (r: seq<T>)
    ensures |r| <= |xs|
    ensures forall x :: x in r <==> x in xs && keep(x)
    ensures forall i :: 0 <= i < |r| ==> keep(r[i])
  {
    if |xs| == 0 then []
    else if keep(xs[0]) then [xs[0]] + Filter(xs[1..], keep)
    else Filter(xs[1..], keep)
  }

  /** Filtering a sequence extended by one element extends the result by that
      element exactly when it is kept. */
  lemma {:induction false} FilterAppend<T(!new)>(xs: seq<T>, x: T, keep: T -> bool)
    ensures Filter(xs + [x], keep) == Filter(xs, keep) + (if keep(x) then [x] else [])
  {
    if |xs| == 0 {
      assert xs + [x] == [x];
      assert [x][1..] == [];
    } else {
      assert (xs + [x])[0] == xs[0];
      assert (xs + [x])[1..] == xs[1..] + [x];
      FilterAppend(xs[1..], x, keep);
    }
  }

  /** A filter keeps every copy of a kept element and no copy of a dropped one. */
  lemma {:induction false} FilterCount<T(!new)>(xs: seq<T>, keep: T -> bool)
    ensures forall x :: multiset(Filter(xs, keep))[x] == if keep(x) then multiset(xs)[x] else 0
  {
    if |xs| > 0 {
      assert xs == [xs[0]] + xs[1..];
      FilterCount(xs[1..], keep);
    }
  }

  /** A filter that keeps no element of `xs` gives the empty sequence. */
  lemma {:induction false} FilterKeepsNothing<T(!new)>(xs: seq<T>, keep: T -> bool)
    requires forall x :: x in xs ==> !keep(x)
    ensures Filter(xs, keep) == []
  {
    if |xs| > 0 {
      assert xs[0] in xs;
      assert forall x :: x in xs[1..] ==> x in xs;
      FilterKeepsNothing(xs[1..], keep);
    }
  }

  /** Python's `s[:n]`: the first `n` elements, or all of `s` when it is shorter. */
  function Prefix<T(!new)>(s: seq<T>, n: nat): (r: seq<T>)
    ensures |r| == (if |s| <= n then |s| else n)
    ensures r <= s
  {
    if |s| <= n then s else s[..n]
  }

  /** The position of the first element satisfying `hit`, if any. */
  function FindFirst<T(!new)>(xs: seq<T>, hit: T -> bool): (r: Option<nat>)
    ensures r.Some? ==> r.value < |xs| && hit(xs[r.value])
    ensures r.Some? ==> forall j :: 0 <= j < r.value ==> !hit(xs[j])
    ensures r.None? <==> forall x :: x in xs ==> !hit(x)
  {
    if |xs| == 0 then None
    else if hit(xs[0]) then Some(0)
    else match FindFirst(xs[1..], hit)
      case None => None
      case Some(i) => Some(i + 1)
  }

  /** No two positions of `xs` carry the same key: a primary key or a unique column. */
  predicate UniqueBy<T(!new), K(==)>(xs: seq<T>, key: T -> K)
  {
    forall i, j :: 0 <= i < j < |xs| ==> key(xs[i]) != key(xs[j])
  }

  /** Deleting rows keeps a unique column unique. */
  lemma {:induction false} FilterKeepsUnique<T(!new), K>(xs: seq<T>, keep: T -> bool, key: T -> K)
    requires UniqueBy(xs, key)
    ensures UniqueBy(Filter(xs, keep), key)
  {
    if |xs| > 0 {
      var tail := Filter(xs[1..], keep);
      FilterKeepsUnique(xs[1..], keep, key);
      if keep(xs[0]) {
        forall j | 0 <= j < |tail|
          ensures key(xs[0]) != key(tail[j])
        {
          assert tail[j] in xs[1..];
          var k :| 0 <= k < |xs[1..]| && xs[1..][k] == tail[j];
          assert xs[k + 1] == tail[j];
        }
        assert Filter(xs, keep) == [xs[0]] + tail;
      }
    }
  }

  /** Appending a row whose key is new keeps a unique column unique. */
  lemma AppendKeepsUnique<T(!new), K>(xs: seq<T>, x: T, key: T -> K)
    requires UniqueBy(xs, key)
    requires forall y :: y in xs ==> key(y) != key(x)
    ensures UniqueBy(xs + [x], key)
  {
  }

  /** In a sequence without repeated keys the set of keys has one key per element. */
  lemma {:induction false} UniqueKeysCardinality<T(!new), K(!new)>(xs: seq<T>, key: T -> K, keys: set<K>)
    requires UniqueBy(xs, key)
    requires forall k :: k in keys <==> exists x :: x in xs && key(x) == k
    ensures |keys| == |xs|
  {
    if |xs| == 0 {
      assert keys == {};
    } else {
      var tail := xs[1..];
      assert UniqueBy(tail, key) by {
        forall i, j | 0 <= i < j < |tail| ensures key(tail[i]) != key(tail[j]) {
          assert tail[i] == xs[i + 1] && tail[j] == xs[j + 1];
        }
      }
      var tailKeys := keys - {key(xs[0])};
      forall k ensures k in tailKeys <==> exists x :: x in tail && key(x) == k {
        if k in tailKeys {
          var x :| x in xs && key(x) == k;
          var m :| 0 <= m < |xs| && xs[m] == x;
          assert m != 0;
          assert tail[m - 1] == x;
        }
        if exists x :: x in tail && key(x) == k {
          var x :| x in tail && key(x) == k;
          var m :| 0 <= m < |tail| && tail[m] == x;
          assert xs[m + 1] == x;
          assert xs[0] in xs;
        }
      }
      UniqueKeysCardinality(tail, key, tailKeys);
      assert xs[0] in xs;
      assert key(xs[0]) in keys;
    }
  }

  /** `xs` without the first occurrence of `x`; the rest keeps its order. */
  function RemoveFirst<T(==)>(xs: seq<T>, x: T): (r: seq<T>)
    requires x in xs
    ensures |r| == |xs| - 1
    ensures multiset(r) == multiset(xs) - multiset{x}
  {
    if xs[0] == x then
      assert xs == [xs[0]] + xs[1..];
      xs[1..]
    else
      assert xs == [xs[0]] + xs[1..];
      [xs[0]] + RemoveFirst(xs[1..], x)
  }

  /** Sequences that are rearrangements of each other have the same members. */
  lemma SameMultisetSameMembers<T(!new)>(a: seq<T>, b: seq<T>)
    requires multiset(a) == multiset(b)
    ensures forall x :: x in a <==> x in b
  {
    forall x ensures x in a <==> x in b {
      assert x in a <==> x in multiset(a);
      assert x in b <==> x in multiset(b);
    }
  }
}
