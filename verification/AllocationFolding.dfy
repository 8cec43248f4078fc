/** `folded_allocation_buckets`: a limit on the rows shown that hides no unknown and loses no total. */
module AllocationFolding {
  import opened Allocation
  import opened StableSort
  import DecimalText

  function Unknown(buckets: seq<Bucket>): seq<Bucket> {
    if buckets == [] then []
    else (if Complete(buckets[0]) then [] else [buckets[0]]) + Unknown(buckets[1..])
  }

  function Known(buckets: seq<Bucket>): seq<Bucket> {
    if buckets == [] then []
    else (if Complete(buckets[0]) then [buckets[0]] else []) + Known(buckets[1..])
  }

  function ByWeight(): Bucket -> real {
    (b: Bucket) => if b.weight.Some? then b.weight.value else 0.0
  }

  function FigureOf(b: Bucket, column: Column): Figure {
    if column.Weight? then b.weight else b.value
  }

  function ColumnOf(buckets: seq<Bucket>, column: Column): seq<Figure> {
    seq(|buckets|, k requires 0 <= k < |buckets| => FigureOf(buckets[k], column))
  }

  /** `_folded_bucket` */
  function FoldedBucket(folded: seq<Bucket>): Bucket {
    Bucket("Other (" + DecimalText.Decimal(|folded|) + " groups)",
           Sum(ColumnOf(folded, Weight)), Sum(ColumnOf(folded, Value)))
  }

  function Max(a: int, b: int): int {
    if a < b then b else a
  }

  /** How many of the known buckets, largest first, stay as they are. */
  function Kept(buckets: seq<Bucket>, limit: int): (kept: nat)
    requires |buckets| > limit
    ensures kept <= |Known(buckets)|
  {
    Partition(buckets);
    Max(0, limit - |Unknown(buckets)| - 1)
  }

  /** The complete buckets, largest weight first. */
  function Ranked(buckets: seq<Bucket>): (known: seq<Bucket>)
    ensures |known| == |Known(buckets)|
  {
    SortsDescending(Known(buckets), ByWeight());
    SortDescending(Known(buckets), ByWeight())
  }

  function FoldedBuckets(buckets: seq<Bucket>, limit: int): (seq<Bucket>, nat) {
    if |buckets| <= limit then (Unknown(buckets) + Ranked(buckets), 0)
    else Fold(Unknown(buckets), Ranked(buckets), Kept(buckets, limit))
  }

  function Fold(unknown: seq<Bucket>, known: seq<Bucket>, kept: nat): (seq<Bucket>, nat)
    requires kept <= |known|
  {
    var folded := known[kept..];
    if folded == [] then (unknown, 0) else (unknown + known[..kept] + [FoldedBucket(folded)], |folded|)
  }

  lemma {:induction false} Partition(buckets: seq<Bucket>)
    ensures |Unknown(buckets)| + |Known(buckets)| == |buckets|
    ensures multiset(Unknown(buckets)) + multiset(Known(buckets)) == multiset(buckets)
    ensures forall b :: b in Known(buckets) ==> Complete(b)
    ensures forall b :: b in Unknown(buckets) ==> !Complete(b)
  {
    if buckets != [] {
      Partition(buckets[1..]);
      assert buckets == [buckets[0]] + buckets[1..];
    }
  }

  /** Never more rows than the limit, unless the unknowns alone fill it. */
  lemma FoldingKeepsTheLimit(buckets: seq<Bucket>, limit: int)
    ensures |FoldedBuckets(buckets, limit).0| <= Max(limit, |Unknown(buckets)| + 1)
  {
    Partition(buckets);
  }

  /** The unknowns come first, each as it was and in its own order; nothing after them is unknown. */
  lemma FoldingKeepsEveryUnknown(buckets: seq<Bucket>, limit: int)
    ensures Unknown(buckets) <= FoldedBuckets(buckets, limit).0
    ensures forall b :: b in FoldedBuckets(buckets, limit).0[|Unknown(buckets)|..] ==> Complete(b)
  {
    var known := Ranked(buckets);
    KnownIsComplete(buckets);
    if |buckets| > limit && known[Kept(buckets, limit)..] != [] {
      var kept := Kept(buckets, limit);
      CompleteSums(known[kept..], Weight);
      CompleteSums(known[kept..], Value);
      assert FoldedBuckets(buckets, limit).0[|Unknown(buckets)|..] == known[..kept] + [FoldedBucket(known[kept..])];
    } else {
      var shown := FoldedBuckets(buckets, limit).0;
      assert shown[|Unknown(buckets)|..] == if |buckets| <= limit then known else [];
    }
  }

  lemma KnownIsComplete(buckets: seq<Bucket>)
    ensures var known := Ranked(buckets);
            |known| == |Known(buckets)| && forall b :: b in known ==> Complete(b)
  {
    Partition(buckets);
    SortsDescending(Known(buckets), ByWeight());
    var known := Ranked(buckets);
    forall b | b in known ensures Complete(b) {
      assert b in multiset(known);
    }
  }

  lemma CompleteSums(buckets: seq<Bucket>, column: Column)
    requires forall b :: b in buckets ==> Complete(b)
    ensures Sum(ColumnOf(buckets, column)).Some?
  {
    var figures := ColumnOf(buckets, column);
    MissingAbsorbs(figures);
    forall k | 0 <= k < |figures| ensures figures[k].Some? {
      assert buckets[k] in buckets;
    }
  }

  lemma Without(b: seq<Bucket>, k: nat)
    requires k < |b|
    ensures multiset(b[..k] + b[k + 1..]) == multiset(b) - multiset{b[k]}
  {
    assert b == b[..k] + [b[k]] + b[k + 1..];
  }

  lemma LastAdds(a: seq<Bucket>, column: Column)
    requires a != []
    ensures var n := |a| - 1;
            && Sum(ColumnOf(a, column)) == Add(Sum(ColumnOf(a[..n], column)), FigureOf(a[n], column))
            && multiset(a[..n]) == multiset(a) - multiset{a[n]}
  {
    var n := |a| - 1;
    assert a == a[..n] + [a[n]];
    assert ColumnOf(a, column) == ColumnOf(a[..n], column) + [FigureOf(a[n], column)];
    SumSnoc(ColumnOf(a[..n], column), FigureOf(a[n], column));
  }

  /** A sum does not depend on the order of what is summed. */
  lemma {:induction false} SumIsOfTheMultiset(a: seq<Bucket>, b: seq<Bucket>, column: Column)
    requires multiset(a) == multiset(b)
    ensures Sum(ColumnOf(a, column)) == Sum(ColumnOf(b, column))
    decreases |a|
  {
    assert |a| == |multiset(a)| == |b|;
    if a != [] {
      var n := |a| - 1;
      assert a[n] in multiset(b);
      var k :| 0 <= k < |b| && b[k] == a[n];
      LastAdds(a, column);
      Without(b, k);
      TakeOut(b, k, column);
      SumIsOfTheMultiset(a[..n], b[..k] + b[k + 1..], column);
    }
  }

  lemma TakeOut(b: seq<Bucket>, k: nat, column: Column)
    requires k < |b|
    ensures Sum(ColumnOf(b, column)) == Add(Sum(ColumnOf(b[..k] + b[k + 1..], column)), FigureOf(b[k], column))
  {
    var c, d, x := ColumnOf(b[..k], column), ColumnOf(b[k + 1..], column), FigureOf(b[k], column);
    assert ColumnOf(b, column) == (c + [x]) + d;
    assert ColumnOf(b[..k] + b[k + 1..], column) == c + d;
    SumConcat(c + [x], d);
    SumConcat(c, d);
    SumSnoc(c, x);
  }

  /** Folding moves no total: what is shown after the unknowns sums to what was known. */
  lemma FoldingConservesTotals(buckets: seq<Bucket>, limit: int, column: Column)
    ensures Sum(ColumnOf(FoldedBuckets(buckets, limit).0[|Unknown(buckets)|..], column))
            == Sum(ColumnOf(Known(buckets), column))
  {
    var unknown, known := Unknown(buckets), Ranked(buckets);
    SortsDescending(Known(buckets), ByWeight());
    SumIsOfTheMultiset(known, Known(buckets), column);
    var shown := FoldedBuckets(buckets, limit).0;
    if |buckets| <= limit {
      assert shown[|unknown|..] == known;
    } else {
      var kept := Kept(buckets, limit);
      if known[kept..] == [] {
        assert shown[|unknown|..] == [] && known == known[..kept];
        Partition(buckets);
        assert known == [];
      } else {
        TotalsOfFold(known, kept, column);
        assert shown[|unknown|..] == known[..kept] + [FoldedBucket(known[kept..])];
      }
    }
  }

  lemma TotalsOfFold(known: seq<Bucket>, kept: nat, column: Column)
    requires kept <= |known|
    ensures Sum(ColumnOf(known[..kept] + [FoldedBucket(known[kept..])], column)) == Sum(ColumnOf(known, column))
  {
    var c, d := ColumnOf(known[..kept], column), ColumnOf(known[kept..], column);
    assert ColumnOf(known, column) == c + d;
    assert ColumnOf(known[..kept] + [FoldedBucket(known[kept..])], column) == c + [Sum(d)];
    SumConcat(c, d);
    SumSnoc(c, Sum(d));
  }

  lemma SplitKeeps(s: seq<Bucket>, k: nat)
    requires k <= |s|
    ensures multiset(s[..k]) + multiset(s[k..]) == multiset(s)
  {
    assert s == s[..k] + s[k..];
  }

  lemma SomethingIsFolded(buckets: seq<Bucket>, limit: int)
    requires |buckets| > limit && Known(buckets) != []
    ensures Kept(buckets, limit) < |Known(buckets)|
  {
    Partition(buckets);
  }

  /** What is folded is the smallest of the known, and the count says how many. */
  lemma FoldingTakesTheSmallest(buckets: seq<Bucket>, limit: int)
    requires |buckets| > limit && Known(buckets) != []
    ensures var known, kept := Ranked(buckets), Kept(buckets, limit);
            && Descending(known, ByWeight()) && |known| == |Known(buckets)| && kept < |known|
            && multiset(known[..kept]) + multiset(known[kept..]) == multiset(Known(buckets))
            && FoldedBuckets(buckets, limit)
               == (Unknown(buckets) + known[..kept] + [FoldedBucket(known[kept..])], |known| - kept)
  {
    var known, kept := Ranked(buckets), Kept(buckets, limit);
    SomethingIsFolded(buckets, limit);
    SortsDescending(Known(buckets), ByWeight());
    SplitKeeps(known, kept);
  }
}
