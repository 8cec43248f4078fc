/**
 The guard between the wire and the compiler: an explicit-stack walk, because a recursive one
 would overflow on exactly the payload it exists to reject, against its recursive meaning.
 */
module StructuralCeilings {
  import opened Json

  const MAX_PAYLOAD_DEPTH: nat := 32
  const MAX_PAYLOAD_LIST_ITEMS: nat := 10_000
  const MAX_PAYLOAD_STRING_LENGTH: nat := 100_000
  const MAX_PAYLOAD_NODES: nat := 500_000

  datatype Refusal = LongText | LongList | TooManyNodes | TooDeep

  datatype Verdict = Within | Exceeds(refusal: Refusal)

  /** The ceilings on one node taken alone. */
  predicate NodeOk(j: Json) {
    && (j.Text? ==> |j.s| <= MAX_PAYLOAD_STRING_LENGTH)
    && (j.Array? ==> |j.items| <= MAX_PAYLOAD_LIST_ITEMS)
  }

  /** Every node of `j`, standing `depth` levels down, within its own ceilings and not too deep. */
  predicate ShapeOk(j: Json, depth: nat)
    decreases j
  {
    && depth <= MAX_PAYLOAD_DEPTH
    && NodeOk(j)
    && forall k :: 0 <= k < |Children(j)| ==> ShapeOk(Children(j)[k], depth + 1)
  }

  function Nodes(j: Json): (n: nat)
    ensures n >= 1
    decreases j, 1
  {
    1 + match j
        case Array(items) => NodesIn(items)
        case Object(_, values) => NodesIn(values)
        case _ => 0
  }

  function NodesIn(js: seq<Json>): nat
    decreases js, 0
  {
    if js == [] then 0 else Nodes(js[0]) + NodesIn(js[1..])
  }

  /** What the payload promises: bounded shape and bounded total size. */
  predicate WithinCeilings(j: Json) {
    ShapeOk(j, 0) && Nodes(j) <= MAX_PAYLOAD_NODES
  }

  datatype Pending = Pending(node: Json, depth: nat)

  function Weight(stack: seq<Pending>): nat {
    if stack == [] then 0 else Weight(stack[..|stack| - 1]) + Nodes(stack[|stack| - 1].node)
  }

  predicate StackOk(stack: seq<Pending>) {
    forall k :: 0 <= k < |stack| ==> ShapeOk(stack[k].node, stack[k].depth)
  }

  function Pushed(js: seq<Json>, depth: nat): (r: seq<Pending>)
    ensures |r| == |js|
    ensures forall k :: 0 <= k < |r| ==> r[k] == Pending(js[k], depth)
  {
    seq(|js|, k requires 0 <= k < |js| => Pending(js[k], depth))
  }

  lemma {:induction false} WeightAppends(a: seq<Pending>, b: seq<Pending>)
    ensures Weight(a + b) == Weight(a) + Weight(b)
    decreases |b|
  {
    if b == [] {
      assert a + b == a;
    } else {
      assert (a + b)[..|a + b| - 1] == a + b[..|b| - 1];
      WeightAppends(a, b[..|b| - 1]);
    }
  }

  lemma {:induction false} PushedWeighs(js: seq<Json>, depth: nat)
    ensures Weight(Pushed(js, depth)) == NodesIn(js)
    decreases |js|
  {
    if js != [] {
      var first := [Pending(js[0], depth)];
      assert Pushed(js, depth) == first + Pushed(js[1..], depth);
      WeightAppends(first, Pushed(js[1..], depth));
      PushedWeighs(js[1..], depth);
      assert first[..0] == [];
      assert Weight(first) == Nodes(js[0]);
    }
  }

  lemma StackAppends(a: seq<Pending>, b: seq<Pending>)
    ensures StackOk(a + b) <==> StackOk(a) && StackOk(b)
  {
    if StackOk(a + b) {
      assert forall k :: 0 <= k < |a| ==> a[k] == (a + b)[k];
      assert forall k {:trigger b[k]} :: 0 <= k < |b| ==> b[k] == (a + b)[|a| + k];
    }
  }

  /** Popping a node and pushing its children moves one node out of the pending weight. */
  lemma PopPush(stack: seq<Pending>)
    requires stack != []
    ensures var top := stack[|stack| - 1];
            var rest := stack[..|stack| - 1] + Pushed(Children(top.node), top.depth + 1);
            && Weight(rest) == Weight(stack) - 1
            && (top.depth <= MAX_PAYLOAD_DEPTH && NodeOk(top.node) ==> (StackOk(rest) <==> StackOk(stack)))
    ensures StackOk(stack) ==> ShapeOk(stack[|stack| - 1].node, stack[|stack| - 1].depth)
  {
    var top, base := stack[|stack| - 1], stack[..|stack| - 1];
    WeightAppends(base, Pushed(Children(top.node), top.depth + 1));
    PushedWeighs(Children(top.node), top.depth + 1);
    StackAppends(base, Pushed(Children(top.node), top.depth + 1));
    assert stack == base + [top];
    StackAppends(base, [top]);
    assert StackOk([top]) <==> ShapeOk([top][0].node, [top][0].depth);
  }

  /**
   The walk accepts exactly the payloads within the ceilings, whatever the stack's order brings up
   first; a refusal names a ceiling that really is exceeded; and the work is bounded either way.
   */
  method AssertWithinStructuralCeilings(value: Json) returns (verdict: Verdict, nodes: nat)
    ensures verdict.Within? <==> WithinCeilings(value)
    ensures verdict == Exceeds(TooManyNodes) ==> Nodes(value) > MAX_PAYLOAD_NODES
    ensures verdict.Exceeds? && verdict.refusal != TooManyNodes ==> !ShapeOk(value, 0)
    ensures nodes <= MAX_PAYLOAD_NODES + 1
    ensures verdict.Within? ==> nodes == Nodes(value)
  {
    var stack := [Pending(value, 0)];
    nodes := 0;
    assert stack[..0] == [];
    while stack != []
      invariant nodes + Weight(stack) == Nodes(value)
      invariant StackOk(stack) <==> ShapeOk(value, 0)
      invariant nodes <= MAX_PAYLOAD_NODES
      decreases Weight(stack)
    {
      PopPush(stack);
      var top := stack[|stack| - 1];
      stack := stack[..|stack| - 1];
      nodes := nodes + 1;
      if nodes > MAX_PAYLOAD_NODES {
        return Exceeds(TooManyNodes), nodes;
      }
      if top.depth > MAX_PAYLOAD_DEPTH {
        return Exceeds(TooDeep), nodes;
      }
      if top.node.Text? && |top.node.s| > MAX_PAYLOAD_STRING_LENGTH {
        return Exceeds(LongText), nodes;
      }
      if top.node.Array? && |top.node.items| > MAX_PAYLOAD_LIST_ITEMS {
        return Exceeds(LongList), nodes;
      }
      stack := stack + Pushed(Children(top.node), top.depth + 1);
    }
    return Within, nodes;
  }

  // -- Keys -----------------------------------------------------------------

  /** The same payload but for the keys of its objects, at any level. */
  ghost predicate SameButKeys(a: Json, b: Json)
    decreases a
  {
    && (if a.Object? then b.Object? else if a.Array? then b.Array? else a == b)
    && |Children(a)| == |Children(b)|
    && forall k :: 0 <= k < |Children(a)| ==> SameButKeys(Children(a)[k], Children(b)[k])
  }

  /** No key is ever measured: payloads that differ in nothing else, keys of any length, are judged alike. */
  lemma KeysAreNotMeasured(a: Json, b: Json)
    requires SameButKeys(a, b)
    ensures WithinCeilings(a) <==> WithinCeilings(b)
  {
    SameShape(a, b, 0);
    SameNodes(a, b);
  }

  lemma {:induction false} SameShape(a: Json, b: Json, depth: nat)
    requires SameButKeys(a, b)
    ensures ShapeOk(a, depth) <==> ShapeOk(b, depth)
    decreases a
  {
    forall k | 0 <= k < |Children(a)|
      ensures ShapeOk(Children(a)[k], depth + 1) <==> ShapeOk(Children(b)[k], depth + 1)
    {
      SameShape(Children(a)[k], Children(b)[k], depth + 1);
    }
  }

  lemma {:induction false} SameNodes(a: Json, b: Json)
    requires SameButKeys(a, b)
    ensures Nodes(a) == Nodes(b)
    decreases a, 1
  {
    match a {
      case Array(items) => SameNodesIn(items, b.items);
      case Object(_, values) => SameNodesIn(values, b.values);
      case _ =>
    }
  }

  lemma {:induction false} SameNodesIn(js: seq<Json>, ks: seq<Json>)
    requires |js| == |ks| && forall k :: 0 <= k < |js| ==> SameButKeys(js[k], ks[k])
    ensures NodesIn(js) == NodesIn(ks)
    decreases js, 0
  {
    if js != [] {
      SameNodes(js[0], ks[0]);
      SameNodesIn(js[1..], ks[1..]);
    }
  }
}
