/** Operations on lists shared by the store, the engine and the API: a stable
    sort by a caller-given ordering, a filter and a count. Every `ORDER BY` of
    the store and every `list.sort(key=..., reverse=True)` of the engine and the
    API is `SortBy` with its own ordering; `before(a, b)` means that `a` may
    stand in front of `b`. Every list comprehension with an `if` is `Filter`,
    and every `sum(1 for ... if ...)` is `Count`. */
module Lists {

  predicate Sorted<T>(s: seq<T>, before: (T, T) -> bool) {
    forall i, j :: 0 <= i < j < |s| ==> before(s[i], s[j])
  }

  /** `before` is total and transitive: ties are allowed, cycles are not. */
  ghost predicate TotalPreorder<T(!new)>(before: (T, T) -> bool) {
    && (forall a, b :: before(a, b) || before(b, a))
    && (forall a, b, c :: before(a, b) && before(b, c) ==> before(a, c))
  }

  /** Puts `x` in front of the first element it may precede; elements that
      are tied with `x` and were already placed stay behind it. */
  function Insert<T>(x: T, s: seq<T>, before: (T, T) -> bool): (r: seq<T>)
    ensures |r| == |s| + 1
    ensures multiset(r) == multiset(s) + multiset{x}
  {
    if s == [] then [x]
    else if before(x, s[0]) then [x] + s
    else
      assert s == [s[0]] + s[1..];
      [s[0]] + Insert(x, s[1..], before)
  }

  /** Insertion sort from the back: an earlier element is inserted in front
      of the later ones it ties with, which keeps the sort stable. */
  function SortBy<T>(s: seq<T>, before: (T, T) -> bool): (r: seq<T>)
    ensures |r| == |s|
    ensures multiset(r) == multiset(s)
  {
    if s == [] then []
    else
      assert s == [s[0]] + s[1..];
      Insert(s[0], SortBy(s[1..], before), before)
  }

  lemma {:induction false} InsertSorted<T(!new)>(x: T, s: seq<T>, before: (T, T) -> bool)
    requires TotalPreorder(before)
    requires Sorted(s, before)
    ensures Sorted(Insert(x, s, before), before)
  {
    if s == [] {
    } else if before(x, s[0]) {
      var r := [x] + s;
      forall i, j | 0 <= i < j < |r| ensures before(r[i], r[j]) {
        if i == 0 && j > 1 {
          assert before(s[0], s[j - 1]);
        }
      }
    } else {
      var t := s[1..];
      InsertSorted(x, t, before);
      var u := Insert(x, t, before);
      assert forall k :: 0 <= k < |t| ==> t[k] == s[k + 1];
      InsertBounded(s[0], x, t, before);
      var r := [s[0]] + u;
      forall i, j | 0 <= i < j < |r| ensures before(r[i], r[j]) {
        if i > 0 {
          assert r[i] == u[i - 1] && r[j] == u[j - 1];
        }
      }
    }
  }

  /** A lower bound of `x` and of every element of `t` bounds the result of
      inserting `x` into `t`. */
  lemma {:induction false} InsertBounded<T>(y: T, x: T, t: seq<T>, before: (T, T) -> bool)
    requires before(y, x)
    requires forall k :: 0 <= k < |t| ==> before(y, t[k])
    ensures forall k :: 0 <= k < |Insert(x, t, before)| ==> before(y, Insert(x, t, before)[k])
  {
    if t != [] && !before(x, t[0]) {
      InsertBounded(y, x, t[1..], before);
    }
  }

  /** The sort orders its result and is a permutation of its input. */
  lemma {:induction false} SortBySorted<T(!new)>(s: seq<T>, before: (T, T) -> bool)
    requires TotalPreorder(before)
    ensures Sorted(SortBy(s, before), before)
    ensures multiset(SortBy(s, before)) == multiset(s)
  {
    if s != [] {
      SortBySorted(s[1..], before);
      InsertSorted(s[0], SortBy(s[1..], before), before);
    }
  }

  /** Sorting a list that is already in order leaves it as it is, so sorting
      the result of an `ORDER BY` a second time by the same key changes
      nothing. */
  lemma {:induction false} SortByOfSorted<T>(s: seq<T>, before: (T, T) -> bool)
    requires Sorted(s, before)
    ensures SortBy(s, before) == s
  {
    if s != [] {
      assert Sorted(s[1..], before);
      SortByOfSorted(s[1..], before);
      if |s| > 1 {
        assert before(s[0], s[1]);
      }
      assert s == [s[0]] + s[1..];
    }
  }

  lemma SortedPrefix<T>(s: seq<T>, n: nat, before: (T, T) -> bool)
    requires Sorted(s, before)
    requires n <= |s|
    ensures Sorted(s[..n], before)
  {
  }

  /** The sort keeps exactly the elements it was given. */
  lemma SortByMembers<T>(s: seq<T>, before: (T, T) -> bool, x: T)
    ensures x in SortBy(s, before) <==> x in s
  {
    assert x in SortBy(s, before) <==> x in multiset(SortBy(s, before));
    assert x in s <==> x in multiset(s);
  }

  lemma ConcatAssoc<T>(a: seq<T>, b: seq<T>, c: seq<T>)
    ensures (a + b) + c == a + (b + c)
  {
  }

  /** Python's slice `s[:k]`; a negative `k` drops |k| elements from the end. */
  function PyPrefix<T>(s: seq<T>, k: int): (r: seq<T>)
    ensures |r| <= |s| && r == s[..|r|]
    ensures k >= 0 ==> |r| == if k < |s| then k else |s|
  {
    if k >= 0 then (if k < |s| then s[..k] else s)
    else if |s| + k > 0 then s[..|s| + k]
    else []
  }

  /** The first `k` of a sorted list: sorted, drawn from the list, and
      ranked at least as high as every element left out. */
  lemma {:induction false} TopOfSorted<T(!new)>(s: seq<T>, k: int, before: (T, T) -> bool)
    requires TotalPreorder(before)
    ensures Sorted(PyPrefix(SortBy(s, before), k), before)
    ensures forall x :: x in PyPrefix(SortBy(s, before), k) ==> x in s
    ensures forall x, y :: (x in PyPrefix(SortBy(s, before), k) && y in s
                           && y !in PyPrefix(SortBy(s, before), k)) ==> before(x, y)
  {
    var sorted := SortBy(s, before);
    var r := PyPrefix(sorted, k);
    SortBySorted(s, before);
    SortedPrefix(sorted, |r|, before);
    forall x | x in r ensures x in s {
      SortByMembers(s, before, x);
    }
    forall x, y | x in r && y in s && y !in r ensures before(x, y) {
      SortByMembers(s, before, y);
      var i :| 0 <= i < |r| && r[i] == x;
      var j :| 0 <= j < |sorted| && sorted[j] == y;
      assert forall t :: 0 <= t < |r| ==> sorted[t] == r[t];
      assert i < j;
      assert sorted[i] == x;
    }
  }

  /** `[x for x in s if keep(x)]`. */
  function Filter<T(!new)>(s: seq<T>, keep: T -> bool): (r: seq<T>)
    ensures |r| == Count(s, keep) <= |s|
    ensures forall x :: x in r <==> x in s && keep(x)
  {
    if s == [] then []
    else (if keep(s[0]) then [s[0]] else []) + Filter(s[1..], keep)
  }

  /** Filtering keeps the relative order of the elements it keeps. */
  lemma {:induction false} FilterSorted<T(!new)>(s: seq<T>, keep: T -> bool, before: (T, T) -> bool)
    requires Sorted(s, before)
    ensures Sorted(Filter(s, keep), before)
  {
    if s != [] {
      assert Sorted(s[1..], before);
      FilterSorted(s[1..], keep, before);
      var t := Filter(s[1..], keep);
      forall k | 0 <= k < |t| ensures before(s[0], t[k]) {
        assert t[k] in s[1..];
        var j :| 0 <= j < |s[1..]| && s[1..][j] == t[k];
        assert s[j + 1] == t[k];
      }
    }
  }

  /** `sum(1 for x in s if p(x))`. */
  function Count<T>(s: seq<T>, p: T -> bool): (n: nat)
    ensures n <= |s|
  {
    if s == [] then 0 else (if p(s[0]) then 1 else 0) + Count(s[1..], p)
  }

  /** Two counts whose conditions never hold together add up to at most the
      length of the list. */
  lemma {:induction false} CountDisjoint<T>(s: seq<T>, p: T -> bool, q: T -> bool)
    requires forall x :: x in s ==> !(p(x) && q(x))
    ensures Count(s, p) + Count(s, q) <= |s|
  {
    if s != [] {
      CountDisjoint(s[1..], p, q);
    }
  }

  /** A condition that no element satisfies is counted zero times. */
  lemma {:induction false} CountNone<T>(s: seq<T>, p: T -> bool)
    requires forall x :: x in s ==> !p(x)
    ensures Count(s, p) == 0
  {
    if s != [] {
      CountNone(s[1..], p);
    }
  }
}
