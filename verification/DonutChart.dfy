/**
 From allocation buckets to the donut: at most six positive slices with nothing lost, and wedges
 that tile the ring.
 */
module DonutChart {
  import opened StableSort
  import A = Allocation

  const NOT_AVAILABLE: string := "Not available"
  const PALETTE: seq<string> := ["series-1", "series-2", "series-3", "series-4", "series-5", "series-6"]
  const UNCHARTED: string := "series-uncharted"
  const NAMEABLE_SLICE_PCT: real := 2.0
  const UNCROWDED_SLICE_COUNT: nat := 4

  datatype Entry = Entry(name: string, weight: real, value: real)

  datatype Slice = Slice(name: string, weight: real, value: real, color: string)

  // -- Entries --------------------------------------------------------------

  predicate Charted(b: A.Bucket) {
    b.name != NOT_AVAILABLE && b.weight.Some? && b.weight.value > 0.0 && b.value.Some?
  }

  function EntryOf(b: A.Bucket): Entry
    requires Charted(b)
  {
    Entry(b.name, b.weight.value, b.value.value)
  }

  /** The buckets a chart can draw, in their order. */
  function Entries(buckets: seq<A.Bucket>): seq<Entry> {
    if buckets == [] then []
    else
      var b := buckets[|buckets| - 1];
      Entries(buckets[..|buckets| - 1]) + if Charted(b) then [EntryOf(b)] else []
  }

  function ByWeight(): Entry -> real {
    (e: Entry) => e.weight
  }

  /** `_parsed_allocation_entries`: appended one by one, then sorted largest first. */
  method ParsedEntries(buckets: seq<A.Bucket>) returns (entries: seq<Entry>)
    ensures entries == SortDescending(Entries(buckets), ByWeight())
  {
    entries := [];
    assert buckets[..0] == [];
    for k := 0 to |buckets|
      invariant entries == Entries(buckets[..k])
    {
      assert buckets[..k + 1][..k] == buckets[..k];
      if Charted(buckets[k]) {
        entries := entries + [EntryOf(buckets[k])];
      }
    }
    assert buckets[..|buckets|] == buckets;
    entries := SortDescending(entries, ByWeight());
  }

  predicate Positive(entries: seq<Entry>) {
    forall k :: 0 <= k < |entries| ==> entries[k].weight > 0.0
  }

  lemma {:induction false} EntriesArePositive(buckets: seq<A.Bucket>)
    ensures Positive(Entries(buckets))
  {
    if buckets != [] {
      EntriesArePositive(buckets[..|buckets| - 1]);
    }
  }

  // -- Totals ---------------------------------------------------------------

  function Weight(entries: seq<Entry>): real {
    if entries == [] then 0.0 else Weight(entries[..|entries| - 1]) + entries[|entries| - 1].weight
  }

  function Value(entries: seq<Entry>): real {
    if entries == [] then 0.0 else Value(entries[..|entries| - 1]) + entries[|entries| - 1].value
  }

  lemma {:induction false} TotalsConcat(a: seq<Entry>, b: seq<Entry>)
    ensures Weight(a + b) == Weight(a) + Weight(b) && Value(a + b) == Value(a) + Value(b)
  {
    if b == [] {
      assert a + b == a;
    } else {
      var n := |b| - 1;
      assert (a + b)[..|a + b| - 1] == a + b[..n];
      TotalsConcat(a, b[..n]);
    }
  }

  lemma {:induction false} PositiveTotal(entries: seq<Entry>)
    requires Positive(entries)
    ensures Weight(entries) >= 0.0 && (entries != [] ==> Weight(entries) > 0.0)
  {
    if entries != [] {
      PositiveTotal(entries[..|entries| - 1]);
    }
  }

  lemma {:induction false} TotalsOfReordering(a: seq<Entry>, b: seq<Entry>)
    requires multiset(a) == multiset(b)
    ensures Weight(a) == Weight(b) && Value(a) == Value(b)
    decreases |a|
  {
    assert |a| == |multiset(a)| == |b|;
    if a != [] {
      var n := |a| - 1;
      var e := a[n];
      assert a == a[..n] + [e];
      assert e in multiset(b);
      var k :| 0 <= k < |b| && b[k] == e;
      Without(b, k);
      TotalsOfReordering(a[..n], b[..k] + b[k + 1..]);
    }
  }

  lemma Without(b: seq<Entry>, k: nat)
    requires k < |b|
    ensures var rest := b[..k] + b[k + 1..];
            && multiset(rest) == multiset(b) - multiset{b[k]}
            && Weight(b) == Weight(rest) + b[k].weight && Value(b) == Value(rest) + b[k].value
  {
    assert b == b[..k] + [b[k]] + b[k + 1..];
    TotalsConcat(b[..k] + [b[k]], b[k + 1..]);
    TotalsConcat(b[..k], [b[k]]);
    TotalsConcat(b[..k], b[k + 1..]);
    assert [b[k]][..0] == [];
  }

  // -- Grouping -------------------------------------------------------------

  function AtLeast(entries: seq<Entry>, pct: real): (n: nat)
    ensures n <= |entries|
  {
    if entries == [] then 0 else (if entries[0].weight >= pct then 1 else 0) + AtLeast(entries[1..], pct)
  }

  function Min(a: int, b: int): int {
    if a < b then a else b
  }

  /** `_nameable_count` */
  function NameableCount(entries: seq<Entry>): (named: nat)
    ensures named <= |entries| && named <= |PALETTE|
    ensures named < |entries| ==> named < |PALETTE|
  {
    var named := if |entries| > UNCROWDED_SLICE_COUNT then AtLeast(entries, NAMEABLE_SLICE_PCT) else |entries|;
    if named < |entries| || named > |PALETTE| then Min(named, |PALETTE| - 1) else named
  }

  /** In a sorted list the entries of at least a size are a prefix. */
  lemma {:induction false} LargeOnesComeFirst(entries: seq<Entry>, pct: real, k: nat)
    requires Descending(entries, ByWeight()) && k < |entries|
    ensures entries[k].weight >= pct <==> k < AtLeast(entries, pct)
  {
    if k == 0 {
      if entries[0].weight < pct && |entries| > 1 {
        assert ByWeight()(entries[0]) >= ByWeight()(entries[1]);
        LargeOnesComeFirst(entries[1..], pct, 0);
      }
    } else {
      assert ByWeight()(entries[0]) >= ByWeight()(entries[k]);
      assert forall i, j :: 0 <= i < j < |entries[1..]| ==> ByWeight()(entries[1..][i]) >= ByWeight()(entries[1..][j]);
      LargeOnesComeFirst(entries[1..], pct, k - 1);
    }
  }

  lemma FoldedTotals(entries: seq<Entry>, named: nat, other: Entry)
    requires named <= |entries|
    requires other.weight == Weight(entries[named..]) && other.value == Value(entries[named..])
    ensures var grouped := entries[..named] + [other];
            Weight(grouped) == Weight(entries) && Value(grouped) == Value(entries)
  {
    assert entries == entries[..named] + entries[named..];
    TotalsConcat(entries[..named], entries[named..]);
    assert (entries[..named] + [other])[..named] == entries[..named];
  }

  /**
   `_grouped_with_other`: never more slices than colours, every one of them drawable, the leading
   entries untouched and the rest summed, so that no total changes.
   */
  method GroupedWithOther(entries: seq<Entry>) returns (grouped: seq<Entry>)
    ensures |grouped| <= |PALETTE|
    ensures Positive(entries) ==> Positive(grouped)
    ensures Weight(grouped) == Weight(entries) && Value(grouped) == Value(entries)
    ensures entries[..NameableCount(entries)] <= grouped
    ensures |grouped| == NameableCount(entries) + if NameableCount(entries) < |entries| then 1 else 0
  {
    var named := NameableCount(entries);
    grouped := entries[..named];
    var folded := entries[named..];
    if folded == [] {
      assert grouped == entries;
    } else {
      var other := Entry("Other", Weight(folded), Value(folded));
      FoldedTotals(entries, named, other);
      if Positive(entries) {
        PositiveTotal(folded);
      }
      grouped := grouped + [other];
    }
  }

  lemma {:induction false} AllAtLeast(entries: seq<Entry>, pct: real)
    ensures AtLeast(entries, pct) == |entries| <==> forall k :: 0 <= k < |entries| ==> entries[k].weight >= pct
  {
    if entries != [] {
      AllAtLeast(entries[1..], pct);
      assert forall k :: 0 <= k < |entries[1..]| ==> entries[1..][k] == entries[k + 1];
    }
  }

  /**
   Which of the sorted entries keep their name: all of up to four; of more, those of at least two
   per cent, as long as there is a colour for them and, when anything is folded, one for "Other".
   */
  lemma NamedExactly(entries: seq<Entry>, k: nat)
    requires Descending(entries, ByWeight()) && k < |entries|
    ensures |entries| <= UNCROWDED_SLICE_COUNT ==> k < NameableCount(entries)
    ensures |entries| > UNCROWDED_SLICE_COUNT ==>
            var nothingFolds := |entries| <= |PALETTE|
                                && forall j :: 0 <= j < |entries| ==> entries[j].weight >= NAMEABLE_SLICE_PCT;
            (k < NameableCount(entries)
             <==> entries[k].weight >= NAMEABLE_SLICE_PCT && (nothingFolds || k < |PALETTE| - 1))
  {
    LargeOnesComeFirst(entries, NAMEABLE_SLICE_PCT, k);
    AllAtLeast(entries, NAMEABLE_SLICE_PCT);
  }

  // -- Slices ---------------------------------------------------------------

  function SliceEntries(slices: seq<Slice>): seq<Entry> {
    seq(|slices|, k requires 0 <= k < |slices| => Entry(slices[k].name, slices[k].weight, slices[k].value))
  }

  /**
   `allocation_items_from_rows`, from the rows already read. The index into the palette and the
   guard against a slice without a sweep are the two places it could fail; it reaches neither.
   */
  method AllocationItems(rows: seq<A.Row>) returns (slices: seq<Slice>)
    ensures |slices| <= |PALETTE|
    ensures forall k :: 0 <= k < |slices| ==> slices[k].weight > 0.0 && slices[k].color == PALETTE[k]
    ensures exists buckets :: FromRows(rows, buckets) && Conserves(slices, Entries(buckets))
  {
    var buckets := A.AllocationBuckets(rows);
    var entries := ParsedEntries(buckets);
    EntriesArePositive(buckets);
    SortsDescending(Entries(buckets), ByWeight());
    SortedIsPositive(Entries(buckets));
    TotalsOfReordering(entries, Entries(buckets));
    var grouped := GroupedWithOther(entries);
    slices := Coloured(grouped);
    assert FromRows(rows, buckets) && Conserves(slices, Entries(buckets));
  }

  /** Its comprehension over the grouped entries. */
  method Coloured(grouped: seq<Entry>) returns (slices: seq<Slice>)
    requires |grouped| <= |PALETTE| && Positive(grouped)
    ensures SliceEntries(slices) == grouped
    ensures forall k :: 0 <= k < |slices| ==> slices[k].weight > 0.0 && slices[k].color == PALETTE[k]
  {
    slices := [];
    for index := 0 to |grouped|
      invariant |slices| == index
      invariant forall k :: 0 <= k < index ==>
                  slices[k] == Slice(grouped[k].name, grouped[k].weight, grouped[k].value, PALETTE[k])
    {
      slices := slices + [Slice(grouped[index].name, grouped[index].weight, grouped[index].value, PALETTE[index])];
    }
    assert SliceEntries(slices) == grouped;
  }

  ghost predicate FromRows(rows: seq<A.Row>, buckets: seq<A.Bucket>) {
    && |buckets| == |A.FirstSeen(rows)|
    && forall k :: 0 <= k < |buckets| ==> buckets[k] == A.BucketOf(rows, A.FirstSeen(rows)[k])
  }

  ghost predicate Conserves(slices: seq<Slice>, entries: seq<Entry>) {
    Weight(SliceEntries(slices)) == Weight(entries) && Value(SliceEntries(slices)) == Value(entries)
  }

  lemma SortedIsPositive(entries: seq<Entry>)
    requires Positive(entries)
    ensures Positive(SortDescending(entries, ByWeight()))
  {
    var sorted := SortDescending(entries, ByWeight());
    SortsDescending(entries, ByWeight());
    forall k | 0 <= k < |sorted| ensures sorted[k].weight > 0.0 {
      assert sorted[k] in multiset(sorted);
      assert sorted[k] in entries;
    }
  }

  // -- The ring -------------------------------------------------------------

  /** A wedge from one angle to another; the path of its outline is not modelled. */
  datatype Segment = Segment(colour: string, start: real, end: real)

  /** Below this the remainder of the ring is not drawn. */
  const ZERO_TOLERANCE: real := 0.000000001

  /** The angle a weight sweeps, as a share of the whole turn: `angle / tau == weight / whole`. */
  predicate Sweeps(angle: real, weight: real, whole: real, tau: real) {
    angle * whole == weight * tau
  }

  lemma SweepsAdd(a: real, x: real, b: real, y: real, whole: real, tau: real)
    requires Sweeps(a, x, whole, tau) && Sweeps(b, y, whole, tau)
    ensures Sweeps(a + b, x + y, whole, tau)
  {
  }

  /** `float(weight / whole) * tau` */
  method Swept(weight: real, whole: real, tau: real) returns (angle: real)
    requires whole > 0.0
    ensures Sweeps(angle, weight, whole, tau)
  {
    var share := weight / whole;
    angle := share * tau;
    assert share * whole == weight;
    assert angle * whole == (share * whole) * tau;
  }

  lemma PositiveSweep(angle: real, weight: real, whole: real, tau: real)
    requires Sweeps(angle, weight, whole, tau) && weight > 0.0 && whole > 0.0 && tau > 0.0
    ensures angle > 0.0
  {
    assert weight * tau > 0.0;
  }

  function Total(slices: seq<Slice>): real {
    if slices == [] then 0.0 else Total(slices[..|slices| - 1]) + slices[|slices| - 1].weight
  }

  predicate Drawable(slices: seq<Slice>) {
    forall k :: 0 <= k < |slices| ==> slices[k].weight > 0.0
  }

  /** Shares are of the whole portfolio; only an overshoot is renormalised. */
  function Whole(slices: seq<Slice>): real {
    if Total(slices) > 100.0 then Total(slices) else 100.0
  }

  /** Segments from the top of the ring to an angle: none empty, none overlapping, no gap. */
  ghost predicate Tiles(segments: seq<Segment>, angle: real) {
    && (segments == [] ==> angle == 0.0)
    && (segments != [] ==> segments[0].start == 0.0 && segments[|segments| - 1].end == angle)
    && (forall k :: 0 <= k < |segments| ==> segments[k].start < segments[k].end)
    && forall k :: 0 < k < |segments| ==> segments[k].start == segments[k - 1].end
  }

  /** A wedge for each slice so far, in its colour. */
  ghost predicate Wedges(wedges: seq<Segment>, slices: seq<Slice>, angle: real) {
    && |wedges| <= |slices| && Tiles(wedges, angle)
    && forall k :: 0 <= k < |wedges| ==> wedges[k].colour == slices[k].color
  }

  /** Each of them sweeps its own share of the turn. */
  ghost predicate Shares(wedges: seq<Segment>, slices: seq<Slice>, whole: real, tau: real) {
    && |wedges| <= |slices|
    && forall k :: 0 <= k < |wedges| ==> Sweeps(wedges[k].end - wedges[k].start, slices[k].weight, whole, tau)
  }

  /** What is left of the turn, when there is enough of it to see. */
  function Remainder(angle: real, tau: real): seq<Segment> {
    if tau - angle > ZERO_TOLERANCE then [Segment(UNCHARTED, angle, tau)] else []
  }

  /** `donut_segments`, its angles over the reals. */
  method DonutSegments(slices: seq<Slice>, tau: real) returns (segments: seq<Segment>)
    requires Drawable(slices) && tau > 0.0
    ensures slices == [] ==> segments == []
    ensures slices != [] ==> Drawn(slices, segments, tau)
    ensures slices != [] ==>
            var angle := segments[|slices| - 1].end;
            angle <= tau && (angle == tau <==> Total(slices) >= 100.0)
  {
    if slices == [] {
      return [];
    }
    var whole := Whole(slices);
    var wedges: seq<Segment> := [];
    var at := 0.0;
    assert slices[..0] == [];
    for k := 0 to |slices|
      invariant |wedges| == k && Wedges(wedges, slices, at) && Shares(wedges, slices, whole, tau)
    {
      var sweep := Swept(slices[k].weight, whole, tau);
      PositiveSweep(sweep, slices[k].weight, whole, tau);
      OneMoreWedge(wedges, slices, whole, tau, at, sweep);
      wedges := wedges + [Segment(slices[k].color, at, at + sweep)];
      at := at + sweep;
    }
    segments := wedges + if tau - at > ZERO_TOLERANCE then [Segment(UNCHARTED, at, tau)] else [];
    DrawnFrom(slices, wedges, at, segments, tau);
    WholeTurn(slices, segments, tau);
  }

  lemma OneMoreWedge(wedges: seq<Segment>, slices: seq<Slice>, whole: real, tau: real, angle: real, sweep: real)
    requires |wedges| < |slices| && Wedges(wedges, slices, angle) && Shares(wedges, slices, whole, tau)
    requires sweep > 0.0 && Sweeps(sweep, slices[|wedges|].weight, whole, tau)
    ensures var grown := wedges + [Segment(slices[|wedges|].color, angle, angle + sweep)];
            Wedges(grown, slices, angle + sweep) && Shares(grown, slices, whole, tau)
  {
    var next := Segment(slices[|wedges|].color, angle, angle + sweep);
    assert next.end - next.start == sweep;
  }

  /** The wedges never pass the full turn, and reach it exactly when the slices reach a hundred. */
  lemma WedgesStayInTheTurn(angle: real, total: real, tau: real)
    requires tau > 0.0 && Sweeps(angle, total, if total > 100.0 then total else 100.0, tau)
    ensures angle <= tau && (angle == tau <==> total >= 100.0)
  {
  }

  /** What `donut_segments` draws of slices: their wedges in order, then the remainder. */
  ghost predicate Drawn(slices: seq<Slice>, segments: seq<Segment>, tau: real) {
    && |segments| >= |slices| > 0
    && var wedges := segments[..|slices|];
       var angle := wedges[|slices| - 1].end;
       && Wedges(wedges, slices, angle) && Shares(wedges, slices, Whole(slices), tau)
       && segments[|slices|..] == Remainder(angle, tau)
  }

  lemma DrawnFrom(slices: seq<Slice>, wedges: seq<Segment>, angle: real, segments: seq<Segment>, tau: real)
    requires |wedges| == |slices| > 0 && segments == wedges + Remainder(angle, tau)
    requires Wedges(wedges, slices, angle) && Shares(wedges, slices, Whole(slices), tau)
    ensures Drawn(slices, segments, tau)
  {
    assert segments[..|slices|] == wedges;
    assert segments[|slices|..] == Remainder(angle, tau);
  }

  /** The wedges end where their slices' total says. */
  lemma {:induction false} SweptTotal(wedges: seq<Segment>, slices: seq<Slice>, whole: real, tau: real, n: nat)
    requires n <= |wedges| == |slices| && |wedges| > 0
    requires Tiles(wedges, wedges[|wedges| - 1].end) && Shares(wedges, slices, whole, tau)
    ensures Sweeps(if n == 0 then 0.0 else wedges[n - 1].end, Total(slices[..n]), whole, tau)
  {
    if n > 0 {
      SweptTotal(wedges, slices, whole, tau, n - 1);
      assert slices[..n][..n - 1] == slices[..n - 1];
      var before := if n == 1 then 0.0 else wedges[n - 2].end;
      assert wedges[n - 1].start == before;
      SweepsAdd(before, Total(slices[..n - 1]), wedges[n - 1].end - before, slices[n - 1].weight, whole, tau);
    }
  }

  /** The wedges never pass the full turn, and reach it exactly when the slices reach a hundred. */
  lemma WholeTurn(slices: seq<Slice>, segments: seq<Segment>, tau: real)
    requires tau > 0.0 && Drawn(slices, segments, tau)
    ensures var angle := segments[|slices| - 1].end;
            && Sweeps(angle, Total(slices), Whole(slices), tau)
            && angle <= tau && (angle == tau <==> Total(slices) >= 100.0)
  {
    var wedges := segments[..|slices|];
    assert slices[..|slices|] == slices;
    SweptTotal(wedges, slices, Whole(slices), tau, |slices|);
    WedgesStayInTheTurn(wedges[|slices| - 1].end, Total(slices), tau);
  }

  /** Short of a hundred, the gap is what is missing of it. */
  lemma GapOfTheTurn(angle: real, total: real, tau: real)
    requires total < 100.0 && Sweeps(angle, total, 100.0, tau)
    ensures (tau - angle) * 100.0 == (100.0 - total) * tau
  {
  }

  /** A total that is seen to close the turn: there is no gap, or one wide enough to draw. */
  predicate Closing(total: real, tau: real) {
    total >= 100.0 || (100.0 - total) * tau > 100.0 * ZERO_TOLERANCE
  }

  /** Which shortfalls are seen. */
  lemma GapDecides(angle: real, total: real, tau: real)
    requires tau > 0.0 && Sweeps(angle, total, if total > 100.0 then total else 100.0, tau)
    ensures angle == tau || tau - angle > ZERO_TOLERANCE <==> Closing(total, tau)
  {
    WedgesStayInTheTurn(angle, total, tau);
    if total < 100.0 {
      GapOfTheTurn(angle, total, tau);
    }
  }

  lemma RemainderTiles(wedges: seq<Segment>, segments: seq<Segment>, angle: real, tau: real)
    requires wedges != [] && Tiles(wedges, angle) && angle <= tau && segments == wedges + Remainder(angle, tau)
    ensures Tiles(segments, tau) <==> angle == tau || tau - angle > ZERO_TOLERANCE
    ensures tau - angle <= ZERO_TOLERANCE ==> segments == wedges
  {
  }

  lemma DrawnParts(slices: seq<Slice>, segments: seq<Segment>, tau: real)
    requires Drawn(slices, segments, tau)
    ensures var wedges, angle := segments[..|slices|], segments[|slices| - 1].end;
            wedges != [] && Tiles(wedges, angle) && segments == wedges + Remainder(angle, tau)
  {
    var wedges := segments[..|slices|];
    assert wedges[|slices| - 1] == segments[|slices| - 1];
    assert segments == wedges + segments[|slices|..];
  }

  lemma RingOfParts(wedges: seq<Segment>, segments: seq<Segment>, angle: real, total: real, tau: real)
    requires wedges != [] && Tiles(wedges, angle) && segments == wedges + Remainder(angle, tau)
    requires tau > 0.0 && Sweeps(angle, total, if total > 100.0 then total else 100.0, tau)
    ensures Tiles(segments, tau) <==> Closing(total, tau)
    ensures Tiles(segments, tau) || (Tiles(segments, angle) && 0.0 < tau - angle <= ZERO_TOLERANCE)
  {
    WedgesStayInTheTurn(angle, total, tau);
    GapDecides(angle, total, tau);
    RemainderTiles(wedges, segments, angle, tau);
  }

  /**
   The segments tile the whole turn exactly when the slices reach a hundred or miss it by an angle
   over the drawing tolerance; a smaller shortfall leaves a gap no wider than the tolerance.
   */
  lemma RingCloses(slices: seq<Slice>, segments: seq<Segment>, tau: real)
    requires tau > 0.0 && Drawn(slices, segments, tau)
    ensures Tiles(segments, tau) <==> Closing(Total(slices), tau)
    ensures var angle := segments[|slices| - 1].end;
            Tiles(segments, tau) || (Tiles(segments, angle) && 0.0 < tau - angle <= ZERO_TOLERANCE)
  {
    WholeTurn(slices, segments, tau);
    DrawnParts(slices, segments, tau);
    RingOfParts(segments[..|slices|], segments, segments[|slices| - 1].end, Total(slices), tau);
  }

  /** The ring that stays open: one slice a ten-thousand-millionth short of a hundred, on a turn of 2 pi. */
  lemma RingStaysOpen(segments: seq<Segment>, tau: real)
    requires 6.2 < tau < 6.3
    requires Drawn([Slice("Only", 99.9999999999, 1.0, PALETTE[0])], segments, tau)
    ensures !Tiles(segments, tau)
  {
    var slices := [Slice("Only", 99.9999999999, 1.0, PALETTE[0])];
    assert slices[..0] == [];
    assert Total(slices) == 99.9999999999;
    RingCloses(slices, segments, tau);
  }
}
