/** Python's `sorted(..., key=..., reverse=True)`: largest first, equal keys in their old order. */
module StableSort {

  function Insert<T>(x: T, s: seq<T>, key: T -> real): seq<T> {
    if s == [] || key(x) >= key(s[0]) then [x] + s else [s[0]] + Insert(x, s[1..], key)
  }

  function SortDescending<T>(s: seq<T>, key: T -> real): seq<T> {
    if s == [] then [] else Insert(s[0], SortDescending(s[1..], key), key)
  }

  ghost predicate Descending<T>(s: seq<T>, key: T -> real) {
    forall i, j :: 0 <= i < j < |s| ==> key(s[i]) >= key(s[j])
  }

  /** The elements of one key, in order. */
  function OfKey<T>(s: seq<T>, key: T -> real, k: real): seq<T> {
    if s == [] then [] else (if key(s[0]) == k then [s[0]] else []) + OfKey(s[1..], key, k)
  }

  lemma {:induction false} InsertAdds<T>(x: T, s: seq<T>, key: T -> real)
    ensures multiset(Insert(x, s, key)) == multiset(s) + multiset{x}
    ensures forall y :: y in Insert(x, s, key) ==> y == x || y in s
  {
    if s != [] && key(x) < key(s[0]) {
      InsertAdds(x, s[1..], key);
      assert s == [s[0]] + s[1..];
    }
  }

  lemma LargestFirst<T>(s: seq<T>, y: T, key: T -> real)
    requires s != [] && Descending(s, key) && y in s[1..]
    ensures key(s[0]) >= key(y)
  {
    var i :| 0 <= i < |s[1..]| && s[1..][i] == y;
    assert s[i + 1] == y;
  }

  lemma {:induction false} InsertSorts<T>(x: T, s: seq<T>, key: T -> real)
    requires Descending(s, key)
    ensures Descending(Insert(x, s, key), key)
  {
    if s != [] && key(x) < key(s[0]) {
      var rest := Insert(x, s[1..], key);
      InsertSorts(x, s[1..], key);
      InsertAdds(x, s[1..], key);
      forall j | 0 <= j < |rest| ensures key(s[0]) >= key(rest[j]) {
        if rest[j] != x {
          LargestFirst(s, rest[j], key);
        }
      }
    }
  }

  lemma {:induction false} SortsDescending<T>(s: seq<T>, key: T -> real)
    ensures Descending(SortDescending(s, key), key) && multiset(SortDescending(s, key)) == multiset(s)
    ensures |SortDescending(s, key)| == |s|
  {
    if s != [] {
      SortsDescending(s[1..], key);
      InsertSorts(s[0], SortDescending(s[1..], key), key);
      InsertAdds(s[0], SortDescending(s[1..], key), key);
      assert s == [s[0]] + s[1..];
    }
    SameSize(SortDescending(s, key), s);
  }

  lemma SameSize<T>(a: seq<T>, b: seq<T>)
    requires multiset(a) == multiset(b)
    ensures |a| == |b|
  {
    assert |multiset(a)| == |a| && |multiset(b)| == |b|;
  }

  lemma {:induction false} InsertIsStable<T>(x: T, s: seq<T>, key: T -> real, k: real)
    requires Descending(s, key)
    ensures OfKey(Insert(x, s, key), key, k) == (if key(x) == k then [x] else []) + OfKey(s, key, k)
  {
    if s == [] || key(x) >= key(s[0]) {
      OfKeyCons(x, s, key, k);
    } else {
      InsertIsStable(x, s[1..], key, k);
      OfKeyCons(s[0], Insert(x, s[1..], key), key, k);
      EitherFirst(if key(s[0]) == k then [s[0]] else [], if key(x) == k then [x] else [], OfKey(s[1..], key, k));
    }
  }

  lemma EitherFirst<T>(a: seq<T>, b: seq<T>, rest: seq<T>)
    requires a == [] || b == []
    ensures a + (b + rest) == b + (a + rest)
  {
  }

  lemma OfKeyCons<T>(x: T, s: seq<T>, key: T -> real, k: real)
    ensures OfKey([x] + s, key, k) == (if key(x) == k then [x] else []) + OfKey(s, key, k)
  {
    assert ([x] + s)[1..] == s;
  }

  /** Ties keep their order. */
  lemma {:induction false} SortIsStable<T>(s: seq<T>, key: T -> real, k: real)
    ensures OfKey(SortDescending(s, key), key, k) == OfKey(s, key, k)
  {
    if s != [] {
      SortIsStable(s[1..], key, k);
      SortsDescending(s[1..], key);
      InsertIsStable(s[0], SortDescending(s[1..], key), key, k);
    }
  }
}
