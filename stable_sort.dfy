/**
 * Stable sorting in descending order of an integer key, the effect of
 * Python's `list.sort(key=..., reverse=True)`: elements with equal keys keep
 * their original relative order.
 */
module StableSort {

  predicate SortedDesc<T>(s: seq<T>, key: T -> int) {
    forall i, j :: 0 <= i < j < |s| ==> key(s[i]) >= key(s[j])
  }

  /** The elements of s whose key is k, in order. */
  function WithKey<T>(s: seq<T>, key: T -> int, k: int): seq<T> {
    if |s| == 0 then []
    else (if key(s[0]) == k then [s[0]] else []) + WithKey(s[1..], key, k)
  }

  /** Inserts x into a descending sequence after every element whose key is at least key(x). */
  function Insert<T>(s: seq<T>, x: T, key: T -> int): (r: seq<T>)
    ensures |r| == |s| + 1
  {
    if |s| == 0 then [x]
    else if key(s[0]) >= key(x) then [s[0]] + Insert(s[1..], x, key)
    else [x] + s
  }

  /** The sorted sequence, built by inserting the elements one by one in their original order. */
  function SortDesc<T>(s: seq<T>, key: T -> int): (r: seq<T>)
    ensures |r| == |s|
  {
    if |s| == 0 then []
    else Insert(SortDesc(s[..|s| - 1], key), s[|s| - 1], key)
  }

  lemma {:induction false} InsertSorted<T>(s: seq<T>, x: T, key: T -> int)
    requires SortedDesc(s, key)
    ensures SortedDesc(Insert(s, x, key), key)
    ensures |s| > 0 && key(s[0]) >= key(x) ==> Insert(s, x, key)[0] == s[0]
    ensures !(|s| > 0 && key(s[0]) >= key(x)) ==> Insert(s, x, key)[0] == x
  {
    if |s| > 0 && key(s[0]) >= key(x) {
      InsertSorted(s[1..], x, key);
    }
  }

  lemma {:induction false} InsertMultiset<T>(s: seq<T>, x: T, key: T -> int)
    ensures multiset(Insert(s, x, key)) == multiset(s) + multiset{x}
  {
    if |s| > 0 && key(s[0]) >= key(x) {
      InsertMultiset(s[1..], x, key);
      assert s == [s[0]] + s[1..];
    }
  }

  lemma WithKeyCons<T>(a: T, t: seq<T>, key: T -> int, k: int)
    ensures WithKey([a] + t, key, k) == (if key(a) == k then [a] else []) + WithKey(t, key, k)
  {
    assert ([a] + t)[0] == a && ([a] + t)[1..] == t;
  }

  lemma {:induction false} InsertWithKey<T>(s: seq<T>, x: T, key: T -> int, k: int)
    requires SortedDesc(s, key)
    ensures WithKey(Insert(s, x, key), key, k) == WithKey(s, key, k) + if key(x) == k then [x] else []
  {
    var xs := if key(x) == k then [x] else [];
    if |s| == 0 {
      WithKeyCons(x, [], key, k);
    } else if key(s[0]) >= key(x) {
      var hs := if key(s[0]) == k then [s[0]] else [];
      InsertWithKey(s[1..], x, key, k);
      WithKeyCons(s[0], Insert(s[1..], x, key), key, k);
      WithKeyCons(s[0], s[1..], key, k);
      assert [s[0]] + s[1..] == s;
      calc {
        WithKey(Insert(s, x, key), key, k);
        hs + WithKey(Insert(s[1..], x, key), key, k);
        hs + (WithKey(s[1..], key, k) + xs);
        (hs + WithKey(s[1..], key, k)) + xs;
      }
    } else {
      if k == key(x) {
        NoneWithKey(s, key, k, key(x));
      }
      WithKeyCons(x, s, key, k);
    }
  }

  /** In a descending sequence whose first key is below m, no element has a key k >= m. */
  lemma {:induction false} NoneWithKey<T>(s: seq<T>, key: T -> int, k: int, m: int)
    requires SortedDesc(s, key)
    requires |s| > 0 && key(s[0]) < m && k >= m
    ensures WithKey(s, key, k) == []
  {
    if |s| > 1 {
      NoneWithKey(s[1..], key, k, m);
    }
  }

  lemma {:induction false} WithKeySnoc<T>(s: seq<T>, x: T, key: T -> int, k: int)
    ensures WithKey(s + [x], key, k) == WithKey(s, key, k) + if key(x) == k then [x] else []
  {
    if |s| > 0 {
      assert (s + [x])[1..] == s[1..] + [x];
      WithKeySnoc(s[1..], x, key, k);
    }
  }

  /**
   * The result is sorted newest first, holds the same elements, and keeps
   * the original order among elements with equal keys.
   */
  lemma {:induction false} SortDescCorrect<T>(s: seq<T>, key: T -> int)
    ensures SortedDesc(SortDesc(s, key), key)
    ensures multiset(SortDesc(s, key)) == multiset(s)
    ensures forall k :: WithKey(SortDesc(s, key), key, k) == WithKey(s, key, k)
  {
    if |s| > 0 {
      var prefix, x := s[..|s| - 1], s[|s| - 1];
      SortDescCorrect(prefix, key);
      InsertSorted(SortDesc(prefix, key), x, key);
      InsertMultiset(SortDesc(prefix, key), x, key);
      assert s == prefix + [x];
      forall k
        ensures WithKey(SortDesc(s, key), key, k) == WithKey(s, key, k)
      {
        InsertWithKey(SortDesc(prefix, key), x, key, k);
        WithKeySnoc(prefix, x, key, k);
      }
    }
  }
}
