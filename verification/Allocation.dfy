/**
 Qualified allocation figures: rows summed into buckets where a missing figure absorbs, and
 buckets folded under a limit without losing an unknown or a total.
 */
module Allocation {
  import opened Wrappers

  /** A figure Report supplied, or none. */
  type Figure = Option<real>

  /** One allocation row, its name and figures already read. */
  datatype Row = Row(name: string, weight: Figure, value: Figure)

  datatype Bucket = Bucket(name: string, weight: Figure, value: Figure)

  predicate Complete(b: Bucket) {
    b.weight.Some? && b.value.Some?
  }

  // -- Qualified sums -------------------------------------------------------

  function Add(total: Figure, figure: Figure): Figure {
    if total.Some? && figure.Some? then Some(total.value + figure.value) else None
  }

  /** The sum of the figures when every one is supplied. */
  function Sum(figures: seq<Figure>): Figure {
    if figures == [] then Some(0.0) else Add(Sum(figures[..|figures| - 1]), figures[|figures| - 1])
  }

  lemma SumSnoc(figures: seq<Figure>, figure: Figure)
    ensures Sum(figures + [figure]) == Add(Sum(figures), figure)
  {
    assert (figures + [figure])[..|figures|] == figures;
  }

  lemma {:induction false} SumConcat(a: seq<Figure>, b: seq<Figure>)
    ensures Sum(a + b) == Add(Sum(a), Sum(b))
  {
    if b == [] {
      assert a + b == a;
    } else {
      SumConcat(a, b[..|b| - 1]);
      assert (a + b)[..|a + b| - 1] == a + b[..|b| - 1];
    }
  }

  /** One missing contributor is enough to make the sum missing, and nothing else does. */
  lemma {:induction false} MissingAbsorbs(figures: seq<Figure>)
    ensures Sum(figures).None? <==> None in figures
  {
    if figures != [] {
      MissingAbsorbs(figures[..|figures| - 1]);
      assert figures == figures[..|figures| - 1] + [figures[|figures| - 1]];
    }
  }

  /** `qualified_sum` */
  method QualifiedSum(figures: seq<Figure>) returns (sum: Figure)
    ensures sum == Sum(figures)
  {
    var total := 0.0;
    assert figures[..0] == [];
    for k := 0 to |figures|
      invariant Sum(figures[..k]) == Some(total)
    {
      assert figures[..k + 1] == figures[..k] + [figures[k]];
      SumSnoc(figures[..k], figures[k]);
      if figures[k].None? {
        MissingAbsorbs(figures);
        return None;
      }
      total := total + figures[k].value;
    }
    assert figures[..|figures|] == figures;
    sum := Some(total);
  }

  // -- Buckets --------------------------------------------------------------

  /** The labels in the order a dictionary first meets them. */
  function FirstSeen(rows: seq<Row>): seq<string> {
    if rows == [] then []
    else
      var before, name := FirstSeen(rows[..|rows| - 1]), rows[|rows| - 1].name;
      if name in before then before else before + [name]
  }

  datatype Column = Weight | Value

  function Of(row: Row, column: Column): Figure {
    if column.Weight? then row.weight else row.value
  }

  /** One column of the rows that carry a name, in order. */
  function Figures(rows: seq<Row>, name: string, column: Column): seq<Figure> {
    if rows == [] then []
    else
      var before, row := Figures(rows[..|rows| - 1], name, column), rows[|rows| - 1];
      if row.name == name then before + [Of(row, column)] else before
  }

  function Total(rows: seq<Row>, name: string, column: Column): Figure {
    Sum(Figures(rows, name, column))
  }

  /** The bucket a name's own rows make. */
  function BucketOf(rows: seq<Row>, name: string): Bucket {
    Bucket(name, Total(rows, name, Weight), Total(rows, name, Value))
  }

  lemma {:induction false} SeenMeansHasRows(rows: seq<Row>, name: string)
    ensures name in FirstSeen(rows) <==> exists r :: r in rows && r.name == name
    ensures name !in FirstSeen(rows) ==> forall column :: Figures(rows, name, column) == []
  {
    if rows != [] {
      SeenMeansHasRows(rows[..|rows| - 1], name);
      assert rows == rows[..|rows| - 1] + [rows[|rows| - 1]];
      if name in FirstSeen(rows[..|rows| - 1]) {
        var r :| r in rows[..|rows| - 1] && r.name == name;
        assert r in rows;
      }
    }
  }

  lemma {:induction false} FirstSeenIsDistinct(rows: seq<Row>)
    ensures forall i, j :: 0 <= i < j < |FirstSeen(rows)| ==> FirstSeen(rows)[i] != FirstSeen(rows)[j]
  {
    if rows != [] {
      FirstSeenIsDistinct(rows[..|rows| - 1]);
    }
  }

  lemma NextRow(rows: seq<Row>, k: nat, name: string, column: Column)
    requires k < |rows|
    ensures Total(rows[..k + 1], name, column)
            == if rows[k].name == name then Add(Total(rows[..k], name, column), Of(rows[k], column))
               else Total(rows[..k], name, column)
  {
    assert rows[..k + 1][..k] == rows[..k];
    SumSnoc(Figures(rows[..k], name, column), Of(rows[k], column));
  }

  lemma OtherBucketsStay(rows: seq<Row>, k: nat, name: string)
    requires k < |rows| && rows[k].name != name
    ensures BucketOf(rows[..k + 1], name) == BucketOf(rows[..k], name)
  {
    NextRow(rows, k, name, Weight);
    NextRow(rows, k, name, Value);
  }

  /** The dictionary after some rows: one bucket per name met, each the sum of its own rows. */
  ghost predicate Holds(rows: seq<Row>, order: seq<string>, held: map<string, Bucket>) {
    && order == FirstSeen(rows)
    && (forall name :: name in held <==> name in order)
    && (forall name :: name in held ==> held[name] == BucketOf(rows, name))
  }

  lemma HoldsOneMore(rows: seq<Row>, k: nat, order: seq<string>, held: map<string, Bucket>, bucket: Bucket)
    requires k < |rows| && Holds(rows[..k], order, held) && bucket == BucketOf(rows[..k + 1], rows[k].name)
    ensures var name := rows[k].name;
            Holds(rows[..k + 1], if name in held then order else order + [name], held[name := bucket])
  {
    assert rows[..k + 1][..k] == rows[..k];
    var name := rows[k].name;
    var grown := held[name := bucket];
    forall other | other in grown ensures grown[other] == BucketOf(rows[..k + 1], other) {
      if other != name {
        OtherBucketsStay(rows, k, other);
      }
    }
  }

  /** The bucket the code puts back under a row's name. */
  lemma NextBucket(rows: seq<Row>, k: nat, order: seq<string>, held: map<string, Bucket>)
    requires k < |rows| && Holds(rows[..k], order, held)
    ensures var row := rows[k];
            BucketOf(rows[..k + 1], row.name)
            == if row.name in held
               then Bucket(row.name, Sum([held[row.name].weight, row.weight]), Sum([held[row.name].value, row.value]))
               else Bucket(row.name, row.weight, row.value)
  {
    var row := rows[k];
    NextRow(rows, k, row.name, Weight);
    NextRow(rows, k, row.name, Value);
    if row.name in held {
      SumOfTwo(held[row.name].weight, row.weight);
      SumOfTwo(held[row.name].value, row.value);
    } else {
      SeenMeansHasRows(rows[..k], row.name);
      assert Figures(rows[..k], row.name, Weight) == [] == Figures(rows[..k], row.name, Value);
    }
  }

  /** `allocation_buckets`; the dictionary is its values and its insertion order. */
  method AllocationBuckets(rows: seq<Row>) returns (buckets: seq<Bucket>)
    ensures |buckets| == |FirstSeen(rows)|
    ensures forall k :: 0 <= k < |buckets| ==> buckets[k] == BucketOf(rows, FirstSeen(rows)[k])
  {
    var order: seq<string> := [];
    var held: map<string, Bucket> := map[];
    assert rows[..0] == [];
    for k := 0 to |rows|
      invariant Holds(rows[..k], order, held)
    {
      var name, weight, value := rows[k].name, rows[k].weight, rows[k].value;
      NextBucket(rows, k, order, held);
      if name in held {
        weight := QualifiedSum([held[name].weight, weight]);
        value := QualifiedSum([held[name].value, value]);
      }
      HoldsOneMore(rows, k, order, held, Bucket(name, weight, value));
      order := if name in held then order else order + [name];
      held := held[name := Bucket(name, weight, value)];
    }
    assert rows[..|rows|] == rows;
    buckets := seq(|order|, k requires 0 <= k < |order| => held[order[k]]);
  }

  lemma SumOfTwo(a: Figure, b: Figure)
    ensures Sum([a, b]) == Add(a, b)
  {
    SumSnoc([a], b);
    SumSnoc([], a);
    assert [a] + [b] == [a, b] && [] + [a] == [a];
  }

  // -- Conservation ---------------------------------------------------------

  /** A column of the buckets, in dictionary order. */
  function Totals(rows: seq<Row>, column: Column): seq<Figure> {
    var order := FirstSeen(rows);
    seq(|order|, k requires 0 <= k < |order| => Total(rows, order[k], column))
  }

  /** The same column of the rows. */
  function All(rows: seq<Row>, column: Column): seq<Figure> {
    seq(|rows|, k requires 0 <= k < |rows| => Of(rows[k], column))
  }

  /** Adding to one element of a list adds to its sum. */
  lemma {:induction false} SumOfUpdate(figures: seq<Figure>, k: nat, figure: Figure)
    requires k < |figures|
    ensures Sum(figures[k := Add(figures[k], figure)]) == Add(Sum(figures), figure)
  {
    var n := |figures| - 1;
    var updated := figures[k := Add(figures[k], figure)];
    if k == n {
      assert updated[..n] == figures[..n];
    } else {
      SumOfUpdate(figures[..n], k, figure);
      assert updated[..n] == figures[..n][k := Add(figures[k], figure)];
    }
  }

  lemma KnownNameAdds(rows: seq<Row>, column: Column, k: nat)
    requires rows != []
    requires var n := |rows| - 1; k < |FirstSeen(rows[..n])| && FirstSeen(rows[..n])[k] == rows[n].name
    ensures var n := |rows| - 1;
            Totals(rows, column)
            == Totals(rows[..n], column)[k := Add(Totals(rows[..n], column)[k], Of(rows[n], column))]
  {
    var n := |rows| - 1;
    assert rows[..n + 1] == rows;
    var order := FirstSeen(rows[..n]);
    assert FirstSeen(rows) == order;
    var before, after := Totals(rows[..n], column), Totals(rows, column);
    FirstSeenIsDistinct(rows[..n]);
    forall i | 0 <= i < |order| ensures after[i] == if i == k then Add(before[i], Of(rows[n], column)) else before[i] {
      NextRow(rows, n, order[i], column);
    }
    assert after == before[k := Add(before[k], Of(rows[n], column))];
  }

  lemma NewNameAppends(rows: seq<Row>, column: Column)
    requires rows != [] && rows[|rows| - 1].name !in FirstSeen(rows[..|rows| - 1])
    ensures var n := |rows| - 1;
            Totals(rows, column) == Totals(rows[..n], column) + [Add(Some(0.0), Of(rows[n], column))]
  {
    var n := |rows| - 1;
    assert rows[..n + 1] == rows;
    var order := FirstSeen(rows[..n]);
    SeenMeansHasRows(rows[..n], rows[n].name);
    assert Figures(rows[..n], rows[n].name, column) == [];
    NextRow(rows, n, rows[n].name, column);
    forall i | 0 <= i < |order| ensures Total(rows, order[i], column) == Total(rows[..n], order[i], column) {
      NextRow(rows, n, order[i], column);
    }
  }

  /** Bucketing moves no total: the buckets sum to what the rows sum to, missing included. */
  lemma {:induction false} BucketsConserveTotals(rows: seq<Row>, column: Column)
    ensures Sum(Totals(rows, column)) == Sum(All(rows, column))
  {
    if rows != [] {
      var n := |rows| - 1;
      var order, figure := FirstSeen(rows[..n]), Of(rows[n], column);
      BucketsConserveTotals(rows[..n], column);
      assert All(rows, column) == All(rows[..n], column) + [figure];
      SumSnoc(All(rows[..n], column), figure);
      if rows[n].name in order {
        var k :| 0 <= k < |order| && order[k] == rows[n].name;
        KnownNameAdds(rows, column, k);
        SumOfUpdate(Totals(rows[..n], column), k, figure);
      } else {
        NewNameAppends(rows, column);
        SumSnoc(Totals(rows[..n], column), Add(Some(0.0), figure));
      }
    }
  }
}
