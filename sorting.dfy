/**
 * Ordering of the collected results before output.
 *
 * The programs sort their result vectors with `std::sort` by `task_id`
 * (minimax_prime.cpp, glm5_libfork_prime.cpp, minimax_seastar_prime.cpp,
 * sequence_prime.cpp) or by `start` (glm5_seastar_prime.cpp). `std::sort`
 * fixes only that the result is an ordered permutation; SortBy is one such
 * permutation (an insertion sort), and SortedPermutationUnique shows that
 * every ordered permutation equals it once the key tells the elements apart,
 * as distinct task ids do.
 */
module Sorting {
  import opened SeqFacts

  /** Ascending by key; elements with equal keys may come in any order. */
  predicate SortedBy<T>(s: seq<T>, key: T -> int) {
    forall i, j :: 0 <= i < j < |s| ==> key(s[i]) <= key(s[j])
  }

  /** No two elements of s share a key unless they are equal. */
  predicate KeyInjective<T(==)>(s: seq<T>, key: T -> int) {
    forall x, y :: x in s && y in s && key(x) == key(y) ==> x == y
  }

  function Insert<T>(x: T, s: seq<T>, key: T -> int): seq<T>
    decreases |s|
  {
    if |s| == 0 then [x]
    else if key(x) <= key(s[0]) then [x] + s
    else [s[0]] + Insert(x, s[1..], key)
  }

  function SortBy<T>(s: seq<T>, key: T -> int): seq<T>
    decreases |s|
  {
    if |s| == 0 then [] else Insert(s[0], SortBy(s[1..], key), key)
  }

  lemma {:induction false} InsertProperties<T>(x: T, s: seq<T>, key: T -> int)
    requires SortedBy(s, key)
    ensures SortedBy(Insert(x, s, key), key)
    ensures multiset(Insert(x, s, key)) == multiset(s) + multiset{x}
    ensures |Insert(x, s, key)| == |s| + 1
    decreases |s|
  {
    InsertMultiset(x, s, key);
    InsertSorted(x, s, key);
  }

  /** Insert adds x to the elements and keeps the others. */
  lemma {:induction false} InsertMultiset<T>(x: T, s: seq<T>, key: T -> int)
    ensures multiset(Insert(x, s, key)) == multiset(s) + multiset{x}
    ensures |Insert(x, s, key)| == |s| + 1
    decreases |s|
  {
    if |s| > 0 && key(x) > key(s[0]) {
      InsertMultiset(x, s[1..], key);
      ConsMultiset(s[0], Insert(x, s[1..], key));
      ConsMultiset(s[0], s[1..]);
      ConsSplit(s);
    } else if |s| > 0 {
      ConsMultiset(x, s);
    }
  }

  /** Insert into an ordered sequence keeps it ordered. */
  lemma {:induction false} InsertSorted<T>(x: T, s: seq<T>, key: T -> int)
    requires SortedBy(s, key)
    ensures SortedBy(Insert(x, s, key), key)
    decreases |s|
  {
    if |s| == 0 {
    } else if key(x) <= key(s[0]) {
      SortedCons(x, s, key);
    } else {
      var t := Insert(x, s[1..], key);
      assert SortedBy(s[1..], key) by {
        forall i, j | 0 <= i < j < |s[1..]|
          ensures key(s[1..][i]) <= key(s[1..][j])
        {
          assert s[1..][i] == s[i + 1] && s[1..][j] == s[j + 1];
        }
      }
      InsertSorted(x, s[1..], key);
      InsertMultiset(x, s[1..], key);
      forall k | 0 <= k < |t|
        ensures key(s[0]) <= key(t[k])
      {
        assert t[k] in multiset(s[1..]) + multiset{x};
        if t[k] != x {
          var m :| 0 <= m < |s[1..]| && s[1..][m] == t[k];
          assert s[1..][m] == s[m + 1];
        }
      }
      SortedCons(s[0], t, key);
    }
  }

  /** h before an ordered t stays ordered when no key of t is below h's. */
  lemma SortedCons<T>(h: T, t: seq<T>, key: T -> int)
    requires SortedBy(t, key)
    requires forall k :: 0 <= k < |t| ==> key(h) <= key(t[k])
    ensures SortedBy([h] + t, key)
  {
    var u := [h] + t;
    forall i, j | 0 <= i < j < |u|
      ensures key(u[i]) <= key(u[j])
    {
      assert u[j] == t[j - 1];
      if i > 0 {
        assert u[i] == t[i - 1];
      }
    }
  }

  lemma ConsMultiset<T>(h: T, t: seq<T>)
    ensures multiset([h] + t) == multiset{h} + multiset(t)
  {
  }

  /** SortBy orders its input and only rearranges it. */
  lemma {:induction false} SortByProperties<T>(s: seq<T>, key: T -> int)
    ensures SortedBy(SortBy(s, key), key)
    ensures multiset(SortBy(s, key)) == multiset(s)
    ensures |SortBy(s, key)| == |s|
    decreases |s|
  {
    if |s| > 0 {
      SortByProperties(s[1..], key);
      InsertProperties(s[0], SortBy(s[1..], key), key);
      ConsMultiset(s[0], s[1..]);
      ConsSplit(s);
    }
  }

  /** An input that is already in order comes out unchanged. */
  lemma {:induction false} SortByIdentity<T>(s: seq<T>, key: T -> int)
    requires SortedBy(s, key)
    ensures SortBy(s, key) == s
    decreases |s|
  {
    if |s| > 0 {
      SortByIdentity(s[1..], key);
      ConsSplit(s);
    }
  }

  /** Two ordered arrangements of the same elements start with the same element. */
  lemma SortedSameHead<T>(a: seq<T>, b: seq<T>, key: T -> int)
    requires SortedBy(a, key) && SortedBy(b, key)
    requires multiset(a) == multiset(b) && |a| > 0 && |b| > 0
    requires KeyInjective(a, key)
    ensures a[0] == b[0]
  {
    assert a[0] in multiset(b);
    assert b[0] in multiset(a);
    var j :| 0 <= j < |b| && b[j] == a[0];
    var i :| 0 <= i < |a| && a[i] == b[0];
    assert key(a[0]) <= key(a[i]) == key(b[0]) <= key(b[j]) == key(a[0]);
  }

  /** Removing the same first element leaves the same elements. */
  lemma SameTail<T>(a: seq<T>, b: seq<T>)
    requires multiset(a) == multiset(b) && |a| > 0 && |b| > 0 && a[0] == b[0]
    ensures multiset(a[1..]) == multiset(b[1..])
  {
    assert a == [a[0]] + a[1..];
    assert b == [b[0]] + b[1..];
    assert multiset(a) == multiset{a[0]} + multiset(a[1..]);
    assert multiset(b) == multiset{a[0]} + multiset(b[1..]);
    forall e
      ensures multiset(a[1..])[e] == multiset(b[1..])[e]
    {
      assert multiset(a)[e] == multiset{a[0]}[e] + multiset(a[1..])[e];
      assert multiset(b)[e] == multiset{a[0]}[e] + multiset(b[1..])[e];
    }
  }

  /** Two ordered arrangements of the same elements agree when the key is injective. */
  lemma {:induction false} SortedPermutationUnique<T>(a: seq<T>, b: seq<T>, key: T -> int)
    requires SortedBy(a, key) && SortedBy(b, key)
    requires multiset(a) == multiset(b)
    requires KeyInjective(a, key)
    ensures a == b
    decreases |a|
  {
    assert |a| == |multiset(a)| == |multiset(b)| == |b|;
    if |a| > 0 {
      SortedSameHead(a, b, key);
      SameTail(a, b);
      assert KeyInjective(a[1..], key) by {
        forall x, y | x in a[1..] && y in a[1..] && key(x) == key(y)
          ensures x == y
        {
          assert x in a && y in a;
        }
      }
      SortedPermutationUnique(a[1..], b[1..], key);
      ConsSplit(a);
      ConsSplit(b);
    }
  }

  /** Whatever ordered permutation `std::sort` picks, it is SortBy's when keys are distinct. */
  lemma AnySortIsSortBy<T>(s: seq<T>, t: seq<T>, key: T -> int)
    requires SortedBy(t, key) && multiset(t) == multiset(s)
    requires KeyInjective(s, key)
    ensures t == SortBy(s, key)
  {
    SortByProperties(s, key);
    assert KeyInjective(t, key) by {
      forall x, y | x in t && y in t && key(x) == key(y)
        ensures x == y
      {
        assert x in multiset(s) && y in multiset(s);
      }
    }
    SortedPermutationUnique(t, SortBy(s, key), key);
  }
}
