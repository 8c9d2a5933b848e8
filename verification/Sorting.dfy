/** A stable sort by an integer key: what Array.prototype.sort does with a numeric comparator. */
module Sorting {

  function Insert<T>(x: T, s: seq<T>, key: T -> int): seq<T>
    decreases |s|
  {
    if s == [] then [x]
    else if key(x) <= key(s[0]) then [x] + s
    else [s[0]] + Insert(x, s[1..], key)
  }

  function Sort<T>(s: seq<T>, key: T -> int): seq<T>
    decreases |s|
  {
    if s == [] then [] else Insert(s[0], Sort(s[1..], key), key)
  }

  ghost predicate Ascending<T>(s: seq<T>, key: T -> int) {
    forall i, j :: 0 <= i < j < |s| ==> key(s[i]) <= key(s[j])
  }

  /** The elements with key `k`, in order. */
  ghost function WithKey<T>(s: seq<T>, key: T -> int, k: int): seq<T>
    decreases |s|
  {
    if s == [] then [] else (if key(s[0]) == k then [s[0]] else []) + WithKey(s[1..], key, k)
  }

  lemma {:induction false} InsertContents<T>(x: T, s: seq<T>, key: T -> int)
    ensures multiset(Insert(x, s, key)) == multiset{x} + multiset(s)
    ensures forall y :: y in Insert(x, s, key) ==> y == x || y in s
    decreases |s|
  {
    if s != [] && key(x) > key(s[0]) {
      InsertContents(x, s[1..], key);
      assert s == [s[0]] + s[1..];
    }
  }

  lemma {:induction false} InsertAscending<T>(x: T, s: seq<T>, key: T -> int)
    requires Ascending(s, key)
    ensures Ascending(Insert(x, s, key), key)
    decreases |s|
  {
    if s != [] && key(x) > key(s[0]) {
      InsertAscending(x, s[1..], key);
      InsertContents(x, s[1..], key);
      var t := Insert(x, s[1..], key);
      forall i | 0 <= i < |t| ensures key(s[0]) <= key(t[i]) {
        assert t[i] in t;
      }
    }
  }

  lemma WithKeyCons<T>(x: T, s: seq<T>, key: T -> int, k: int)
    ensures WithKey([x] + s, key, k) == (if key(x) == k then [x] else []) + WithKey(s, key, k)
  {
    assert ([x] + s)[1..] == s;
  }

  lemma {:induction false} InsertStable<T>(x: T, s: seq<T>, key: T -> int, k: int)
    ensures WithKey(Insert(x, s, key), key, k) == WithKey([x] + s, key, k)
    decreases |s|
  {
    hide WithKey;
    if s != [] && key(x) > key(s[0]) {
      var rest := s[1..];
      InsertStable(x, rest, key, k);
      WithKeyCons(s[0], Insert(x, rest, key), key, k);
      WithKeyCons(x, rest, key, k);
      WithKeyCons(x, s, key, k);
      assert s == [s[0]] + rest;
      WithKeyCons(s[0], rest, key, k);
    } else {
      assert Insert(x, s, key) == [x] + s;
    }
  }

  lemma {:induction false} SortContents<T>(s: seq<T>, key: T -> int)
    ensures multiset(Sort(s, key)) == multiset(s)
    ensures |Sort(s, key)| == |s|
    decreases |s|
  {
    if s != [] {
      SortContents(s[1..], key);
      InsertContents(s[0], Sort(s[1..], key), key);
      assert s == [s[0]] + s[1..];
    }
    assert |multiset(Sort(s, key))| == |Sort(s, key)| && |multiset(s)| == |s|;
  }

  lemma {:induction false} SortAscending<T>(s: seq<T>, key: T -> int)
    ensures Ascending(Sort(s, key), key)
    decreases |s|
  {
    if s != [] {
      SortAscending(s[1..], key);
      InsertAscending(s[0], Sort(s[1..], key), key);
    }
  }

  lemma {:induction false} SortStable<T>(s: seq<T>, key: T -> int, k: int)
    ensures WithKey(Sort(s, key), key, k) == WithKey(s, key, k)
    decreases |s|
  {
    if s != [] {
      var rest := Sort(s[1..], key);
      SortStable(s[1..], key, k);
      InsertStable(s[0], rest, key, k);
      WithKeyCons(s[0], rest, key, k);
    }
  }

  /** Sorting changes the order only. */
  lemma SortElements<T>(s: seq<T>, key: T -> int, x: T)
    ensures x in Sort(s, key) <==> x in s
  {
    SortContents(s, key);
    assert x in multiset(Sort(s, key)) <==> x in multiset(s);
  }

  lemma NoDuplicatesKept<T>(s: seq<T>, t: seq<T>, i: nat, j: nat)
    requires multiset(s) == multiset(t) && (forall a, b :: 0 <= a < b < |s| ==> s[a] != s[b])
    requires i < j < |t|
    ensures t[i] != t[j]
  {
    var x := t[i];
    AtMostOnce(s, x);
    assert t == t[..i] + [x] + t[i + 1..j] + [t[j]] + t[j + 1..];
    assert t[j] == x ==> multiset(t)[x] >= 2;
  }

  lemma AtMostOnce<T>(s: seq<T>, x: T)
    requires forall a, b :: 0 <= a < b < |s| ==> s[a] != s[b]
    ensures multiset(s)[x] <= 1
  {
    if x in s {
      var k :| 0 <= k < |s| && s[k] == x;
      var before, after := s[..k], s[k + 1..];
      assert s == before + [x] + after;
      assert x !in before && x !in after;
      assert multiset(s) == multiset(before) + multiset{x} + multiset(after);
    }
  }

  /** What occurs once before sorting occurs once after. */
  lemma SortDistinct<T>(s: seq<T>, key: T -> int)
    requires forall i, j :: 0 <= i < j < |s| ==> s[i] != s[j]
    ensures forall i, j :: 0 <= i < j < |Sort(s, key)| ==> Sort(s, key)[i] != Sort(s, key)[j]
  {
    SortContents(s, key);
    forall i, j | 0 <= i < j < |Sort(s, key)| ensures Sort(s, key)[i] != Sort(s, key)[j] {
      NoDuplicatesKept(s, Sort(s, key), i, j);
    }
  }
}
