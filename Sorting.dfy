/**
 * `Array.prototype.sort` with a comparator, as the compiler uses it: a
 * stable sort (the language has required stability since ECMAScript 2019).
 * A comparator that orders by a key is modelled by the key itself, a pair
 * compared lexicographically. The sort is insertion into a sorted prefix,
 * and it is proved sorted, a permutation and stable: the elements of any one
 * key keep their relative order.
 */
module Sorting {
  /** A sort key, compared lexicographically. */
  type Key = (int, int)

  predicate Le(a: Key, b: Key)
  {
    a.0 < b.0 || (a.0 == b.0 && a.1 <= b.1)
  }

  predicate SortedBy<T>(s: seq<T>, key: T -> Key)
  {
    forall i, j :: 0 <= i < j < |s| ==> Le(key(s[i]), key(s[j]))
  }

  /** `x` placed after every element whose key is not above its own. */
  function Insert<T>(x: T, s: seq<T>, key: T -> Key): (r: seq<T>)
    ensures |r| == |s| + 1
  {
    if |s| == 0 then [x]
    else if Le(key(s[|s| - 1]), key(x)) then s + [x]
    else Insert(x, s[..|s| - 1], key) + [s[|s| - 1]]
  }

  /** The sorted sequence: each element, in order, inserted into the sorted ones before it. */
  function SortBy<T>(s: seq<T>, key: T -> Key): (r: seq<T>)
    ensures |r| == |s|
  {
    if |s| == 0 then [] else Insert(s[|s| - 1], SortBy(s[..|s| - 1], key), key)
  }

  /** The elements whose key is `k`, in order. */
  function Only<T>(s: seq<T>, key: T -> Key, k: Key): seq<T>
  {
    if |s| == 0 then []
    else Only(s[..|s| - 1], key, k) + if key(s[|s| - 1]) == k then [s[|s| - 1]] else []
  }

  lemma OnlySnoc<T>(s: seq<T>, y: T, key: T -> Key, k: Key)
    ensures Only(s + [y], key, k) == Only(s, key, k) + if key(y) == k then [y] else []
  {
    assert (s + [y])[..|s|] == s;
  }

  lemma SortedSnoc<T>(s: seq<T>, y: T, key: T -> Key)
    requires SortedBy(s, key)
    requires forall i :: 0 <= i < |s| ==> Le(key(s[i]), key(y))
    ensures SortedBy(s + [y], key)
  {
  }

  /** Inserting into a sorted sequence keeps it sorted, adds exactly `x`, and puts `x` after the elements of its own key. */
  lemma InsertSpec<T>(x: T, s: seq<T>, key: T -> Key)
    requires SortedBy(s, key)
    ensures SortedBy(Insert(x, s, key), key)
    ensures multiset(Insert(x, s, key)) == multiset(s) + multiset{x}
    ensures forall k :: Only(Insert(x, s, key), key, k) == Only(s, key, k) + if key(x) == k then [x] else []
  {
    InsertSorted(x, s, key);
    forall k ensures Only(Insert(x, s, key), key, k) == Only(s, key, k) + if key(x) == k then [x] else [] {
      InsertOnly(x, s, key, k);
    }
  }

  lemma {:induction false} InsertSorted<T>(x: T, s: seq<T>, key: T -> Key)
    requires SortedBy(s, key)
    ensures SortedBy(Insert(x, s, key), key)
    ensures multiset(Insert(x, s, key)) == multiset(s) + multiset{x}
    decreases |s|
  {
    if |s| == 0 {
    } else {
      var pre, last := s[..|s| - 1], s[|s| - 1];
      assert s == pre + [last];
      if Le(key(last), key(x)) {
        SortedSnoc(s, x, key);
      } else {
        InsertSorted(x, pre, key);
        var r := Insert(x, pre, key);
        OverLast(x, pre, last, key, r);
        SortedSnoc(r, last, key);
        assert multiset(r + [last]) == multiset(r) + multiset{last};
      }
    }
  }

  /** Among the elements of any one key, an inserted `x` comes last. */
  lemma {:induction false} InsertOnly<T>(x: T, s: seq<T>, key: T -> Key, k: Key)
    ensures Only(Insert(x, s, key), key, k) == Only(s, key, k) + if key(x) == k then [x] else []
    decreases |s|
  {
    if |s| == 0 {
      OnlySnoc([], x, key, k);
    } else {
      var pre, last := s[..|s| - 1], s[|s| - 1];
      assert s == pre + [last];
      if Le(key(last), key(x)) {
        OnlySnoc(s, x, key, k);
      } else {
        InsertOnly(x, pre, key, k);
        OnlySnoc(Insert(x, pre, key), last, key, k);
        OnlySnoc(pre, last, key, k);
      }
    }
  }

  /** Every element of the insertion into the front is at most the last element skipped. */
  lemma OverLast<T>(x: T, pre: seq<T>, last: T, key: T -> Key, r: seq<T>)
    requires SortedBy(pre + [last], key) && !Le(key(last), key(x))
    requires multiset(r) == multiset(pre) + multiset{x}
    ensures forall i :: 0 <= i < |r| ==> Le(key(r[i]), key(last))
  {
    forall i | 0 <= i < |r| ensures Le(key(r[i]), key(last)) {
      assert r[i] in multiset(r);
      if r[i] != x {
        assert r[i] in multiset(pre);
        var j :| 0 <= j < |pre| && pre[j] == r[i];
        assert (pre + [last])[j] == pre[j] && (pre + [last])[|pre|] == last;
      }
    }
  }

  /** The sort is sorted, a permutation, and stable. */
  lemma {:induction false} SortSpec<T>(s: seq<T>, key: T -> Key)
    ensures SortedBy(SortBy(s, key), key)
    ensures multiset(SortBy(s, key)) == multiset(s)
    ensures forall k :: Only(SortBy(s, key), key, k) == Only(s, key, k)
  {
    if |s| > 0 {
      var pre, last := s[..|s| - 1], s[|s| - 1];
      assert s == pre + [last];
      SortSpec(pre, key);
      InsertSpec(last, SortBy(pre, key), key);
      forall k ensures Only(SortBy(s, key), key, k) == Only(s, key, k) {
        OnlySnoc(pre, last, key, k);
      }
    }
  }

  /** A sorted sequence is its own sort. */
  lemma {:induction false} SortSorted<T>(s: seq<T>, key: T -> Key)
    requires SortedBy(s, key)
    ensures SortBy(s, key) == s
  {
    if |s| > 0 {
      var pre := s[..|s| - 1];
      assert SortedBy(pre, key);
      SortSorted(pre, key);
      assert s == pre + [s[|s| - 1]];
    }
  }
}
