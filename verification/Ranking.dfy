/** Stable descending order, as a reversed stable sort by a key gives it. */
module Ranking {

  function Place<T>(x: T, s: seq<T>, key: T -> real): seq<T> {
    if |s| == 0 || key(s[0]) <= key(x) then [x] + s else [s[0]] + Place(x, s[1..], key)
  }

  function Descending<T>(s: seq<T>, key: T -> real): seq<T> {
    if |s| == 0 then [] else Place(s[0], Descending(s[1..], key), key)
  }

  ghost predicate Ordered<T>(s: seq<T>, key: T -> real) {
    forall i, j :: 0 <= i < j < |s| ==> key(s[i]) >= key(s[j])
  }

  function WithKey<T>(s: seq<T>, key: T -> real, k: real): seq<T> {
    if |s| == 0 then [] else (if key(s[0]) == k then [s[0]] else []) + WithKey(s[1..], key, k)
  }

  lemma {:induction false} PlaceKeepsElements<T>(x: T, s: seq<T>, key: T -> real)
    ensures multiset(Place(x, s, key)) == multiset(s) + multiset{x}
  {
    if |s| > 0 {
      assert s == [s[0]] + s[1..];
      if key(s[0]) > key(x) { PlaceKeepsElements(x, s[1..], key); }
    }
  }

  lemma {:induction false} PlaceKeepsOrder<T>(x: T, s: seq<T>, key: T -> real)
    requires Ordered(s, key)
    ensures Ordered(Place(x, s, key), key)
  {
    if |s| > 0 && key(s[0]) > key(x) {
      var rest := Place(x, s[1..], key);
      PlaceKeepsOrder(x, s[1..], key);
      PlaceKeepsElements(x, s[1..], key);
      forall j | 0 <= j < |rest| ensures key(s[0]) >= key(rest[j]) {
        assert rest[j] in multiset(rest);
        assert rest[j] == x || rest[j] in s[1..];
      }
    }
  }

  lemma WithKeyFirst<T>(x: T, s: seq<T>, key: T -> real, k: real)
    ensures WithKey([x] + s, key, k) == (if key(x) == k then [x] else []) + WithKey(s, key, k)
  {
    assert ([x] + s)[1..] == s;
  }

  lemma {:induction false} PlaceIsStable<T>(x: T, s: seq<T>, key: T -> real, k: real)
    requires Ordered(s, key)
    ensures WithKey(Place(x, s, key), key, k) == (if key(x) == k then [x] else []) + WithKey(s, key, k)
  {
    if |s| == 0 || key(s[0]) <= key(x) {
      WithKeyFirst(x, s, key, k);
    } else {
      PlaceIsStable(x, s[1..], key, k);
      WithKeyFirst(s[0], Place(x, s[1..], key), key, k);
      if key(x) == k { assert key(s[0]) != k; }
    }
  }

  /** The result holds the same elements, never ascends, and keeps the order of equal keys. */
  lemma {:induction false} DescendingSorts<T>(s: seq<T>, key: T -> real)
    ensures multiset(Descending(s, key)) == multiset(s)
    ensures |Descending(s, key)| == |s|
    ensures Ordered(Descending(s, key), key)
    ensures forall k :: WithKey(Descending(s, key), key, k) == WithKey(s, key, k)
  {
    if |s| > 0 {
      DescendingSorts(s[1..], key);
      PlaceKeepsElements(s[0], Descending(s[1..], key), key);
      PlaceKeepsOrder(s[0], Descending(s[1..], key), key);
      forall k ensures WithKey(Descending(s, key), key, k) == WithKey(s, key, k) {
        PlaceIsStable(s[0], Descending(s[1..], key), key, k);
      }
      assert s == [s[0]] + s[1..];
    }
    SameSize(Descending(s, key), s);
  }

  lemma NeverAscends<T>(s: seq<T>, key: T -> real)
    ensures Ordered(Descending(s, key), key)
  {
    DescendingSorts(s, key);
  }

  lemma SameSize<T>(a: seq<T>, b: seq<T>)
    requires multiset(a) == multiset(b)
    ensures |a| == |b|
  {
    assert |a| == |multiset(a)| && |b| == |multiset(b)|;
  }

  lemma SameMembers<T>(s: seq<T>, key: T -> real)
    ensures forall x :: x in Descending(s, key) <==> x in s
  {
    DescendingSorts(s, key);
    forall x ensures x in Descending(s, key) <==> x in s {
      assert x in Descending(s, key) <==> x in multiset(Descending(s, key));
      assert x in s <==> x in multiset(s);
    }
  }
}
