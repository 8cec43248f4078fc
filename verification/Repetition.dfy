/** Lists that repeat nothing, and what sets and multisets see of them. */
module Repetition {
  predicate NoRepeat<T(==)>(s: seq<T>) {
    forall i, j :: 0 <= i < j < |s| ==> s[i] != s[j]
  }

  function SetOf<T(==)>(s: seq<T>): set<T> {
    set x | x in s
  }

  lemma NoRepeatConcat<T>(s: seq<T>, t: seq<T>)
    requires NoRepeat(s) && NoRepeat(t)
    requires forall x :: x in s ==> x !in t
    ensures NoRepeat(s + t)
  {
    forall i, j | 0 <= i < j < |s + t| ensures (s + t)[i] != (s + t)[j] {
      if i < |s| <= j {
        assert s[i] in s && t[j - |s|] in t;
      }
    }
  }

  /** As many distinct values as values is exactly: no value twice. */
  lemma {:induction false} SetSizeIsDistinctness<T>(s: seq<T>)
    ensures |SetOf(s)| <= |s|
    ensures |SetOf(s)| == |s| <==> NoRepeat(s)
  {
    if s == [] {
      assert SetOf(s) == {};
    } else {
      var rest := s[1..];
      SetSizeIsDistinctness(rest);
      assert SetOf(s) == SetOf(rest) + {s[0]};
      assert forall k :: 0 <= k < |rest| ==> rest[k] == s[k + 1];
    }
  }

  lemma {:induction false} CountsOnce<T>(s: seq<T>, x: T)
    requires NoRepeat(s)
    ensures multiset(s)[x] == if x in s then 1 else 0
  {
    if s != [] {
      assert s == [s[0]] + s[1..];
      CountsOnce(s[1..], x);
    }
  }

  lemma {:induction false} RepeatsCountTwice<T>(s: seq<T>, i: nat, j: nat)
    requires i < j < |s| && s[i] == s[j]
    ensures multiset(s)[s[i]] >= 2
  {
    assert s == [s[0]] + s[1..];
    if i > 0 {
      RepeatsCountTwice(s[1..], i - 1, j - 1);
    } else {
      assert s[1..][j - 1] == s[0];
      assert s[0] in multiset(s[1..]);
    }
  }

  /** Two lists without repetition and with the same members are reorderings of each other. */
  lemma NoRepeatPermutation<T(!new)>(a: seq<T>, b: seq<T>)
    requires NoRepeat(a) && NoRepeat(b)
    requires forall x :: x in a <==> x in b
    ensures multiset(a) == multiset(b)
  {
    forall x ensures multiset(a)[x] == multiset(b)[x] {
      CountsOnce(a, x);
      CountsOnce(b, x);
    }
  }
}
