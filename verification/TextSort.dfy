/** Python's `sorted` on strings: code-point order, and one result for one collection of names. */
module TextSort {
  import opened DecimalText
  import opened Repetition

  ghost predicate Ascending(s: seq<string>) {
    forall i, j :: 0 <= i < j < |s| ==> LexLe(s[i], s[j])
  }

  function Insert(k: string, s: seq<string>): seq<string> {
    if s == [] || LexLe(k, s[0]) then [k] + s else [s[0]] + Insert(k, s[1..])
  }

  function Sort(s: seq<string>): seq<string> {
    if s == [] then [] else Insert(s[0], Sort(s[1..]))
  }

  lemma {:induction false} LexTotal(a: string, b: string)
    ensures LexLe(a, b) || LexLe(b, a)
    ensures LexLe(a, b) && LexLe(b, a) ==> a == b
  {
    if a != [] && b != [] {
      LexTotal(a[1..], b[1..]);
      assert a == [a[0]] + a[1..] && b == [b[0]] + b[1..];
    }
  }

  lemma {:induction false} LexTransitive(a: string, b: string, c: string)
    requires LexLe(a, b) && LexLe(b, c)
    ensures LexLe(a, c)
  {
    if a != [] && a[0] == b[0] == c[0] {
      LexTransitive(a[1..], b[1..], c[1..]);
    }
  }

  lemma {:induction false} InsertKeeps(k: string, s: seq<string>)
    requires Ascending(s)
    ensures Ascending(Insert(k, s)) && multiset(Insert(k, s)) == multiset(s) + multiset{k}
  {
    if s == [] {
    } else if LexLe(k, s[0]) {
      forall j | 0 <= j < |s| ensures LexLe(k, s[j]) {
        if j > 0 { LexTransitive(k, s[0], s[j]); }
      }
    } else {
      var rest := Insert(k, s[1..]);
      InsertKeeps(k, s[1..]);
      LexTotal(k, s[0]);
      assert s == [s[0]] + s[1..];
      forall j | 0 <= j < |rest| ensures LexLe(s[0], rest[j]) {
        assert rest[j] in multiset(rest);
        assert rest[j] == k || rest[j] in s[1..];
      }
    }
  }

  lemma {:induction false} SortSorts(s: seq<string>)
    ensures Ascending(Sort(s)) && multiset(Sort(s)) == multiset(s)
  {
    if s != [] {
      SortSorts(s[1..]);
      InsertKeeps(s[0], Sort(s[1..]));
      assert s == [s[0]] + s[1..];
    }
  }

  lemma FirstIsLeast(s: seq<string>, x: string)
    requires Ascending(s) && x in s
    ensures LexLe(s[0], x)
  {
    LexTotal(x, x);
  }

  lemma Tail(s: seq<string>)
    requires s != [] && Ascending(s)
    ensures multiset(s[1..]) == multiset(s) - multiset{s[0]}
    ensures Ascending(s[1..])
    ensures s == [s[0]] + s[1..]
  {
    assert s == [s[0]] + s[1..];
  }

  lemma SameFirst(a: seq<string>, b: seq<string>)
    requires Ascending(a) && Ascending(b) && multiset(a) == multiset(b) && a != []
    ensures b != [] && a[0] == b[0]
  {
    assert a[0] in multiset(b) && b[0] in multiset(a);
    FirstIsLeast(a, b[0]);
    FirstIsLeast(b, a[0]);
    LexTotal(a[0], b[0]);
  }

  lemma {:induction false} AscendingIsUnique(a: seq<string>, b: seq<string>)
    requires Ascending(a) && Ascending(b) && multiset(a) == multiset(b)
    ensures a == b
  {
    if a == [] {
      assert |b| == |multiset(b)|;
    } else {
      SameFirst(a, b);
      Tail(a);
      Tail(b);
      AscendingIsUnique(a[1..], b[1..]);
    }
  }

  /** The order names arrive in does not matter. */
  lemma SortForgetsOrder(a: seq<string>, b: seq<string>)
    requires multiset(a) == multiset(b)
    ensures Sort(a) == Sort(b)
  {
    SortSorts(a);
    SortSorts(b);
    AscendingIsUnique(Sort(a), Sort(b));
  }

  lemma SortKeepsDistinct(s: seq<string>)
    requires NoRepeat(s)
    ensures NoRepeat(Sort(s)) && forall x :: x in Sort(s) <==> x in s
  {
    SortSorts(s);
    var t := Sort(s);
    forall x ensures x in t <==> x in s {
      assert x in t <==> x in multiset(t);
      assert x in s <==> x in multiset(s);
    }
    forall i, j | 0 <= i < j < |t| ensures t[i] != t[j] {
      CountsOnce(s, t[i]);
      if t[i] == t[j] {
        RepeatsCountTwice(t, i, j);
      }
    }
  }
}
