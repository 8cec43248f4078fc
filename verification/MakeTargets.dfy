/** The worklist closure behind the gate inventory, on any dependency graph. */
module MakeTargets {
  import opened Repetition

  type Graph = map<string, seq<string>>

  /** `dependencies.get(target, ())`: a target nobody declares has none. */
  function Dependencies(graph: Graph, target: string): seq<string> {
    if target in graph then graph[target] else []
  }

  /** Holds the roots and, with a target, everything it depends on. */
  ghost predicate Closed(graph: Graph, roots: seq<string>, s: set<string>) {
    && (forall r :: r in roots ==> r in s)
    && (forall t, d :: t in s && d in Dependencies(graph, t) ==> d in s)
  }

  /** From a root along dependencies to a target. */
  ghost predicate Path(graph: Graph, roots: seq<string>, path: seq<string>, target: string) {
    && path != [] && path[0] in roots && path[|path| - 1] == target
    && forall k :: 0 <= k < |path| - 1 ==> path[k + 1] in Dependencies(graph, path[k])
  }

  ghost predicate Reaches(graph: Graph, roots: seq<string>, target: string) {
    exists path :: Path(graph, roots, path, target)
  }

  lemma RootsAreReached(graph: Graph, roots: seq<string>)
    ensures forall r :: r in roots ==> Reaches(graph, roots, r)
  {
    forall r | r in roots ensures Reaches(graph, roots, r) {
      assert Path(graph, roots, [r], r);
    }
  }

  lemma DependenciesAreReached(graph: Graph, roots: seq<string>, target: string)
    requires Reaches(graph, roots, target)
    ensures forall d :: d in Dependencies(graph, target) ==> Reaches(graph, roots, d)
  {
    var path :| Path(graph, roots, path, target);
    forall d | d in Dependencies(graph, target) ensures Reaches(graph, roots, d) {
      assert Path(graph, roots, path + [d], d);
    }
  }

  lemma {:induction false} ClosedSetsHoldPaths(
    graph: Graph, roots: seq<string>, s: set<string>, path: seq<string>, k: nat)
    requires Closed(graph, roots, s) && k < |path| && Path(graph, roots, path, path[|path| - 1])
    ensures path[k] in s
  {
    if k > 0 {
      ClosedSetsHoldPaths(graph, roots, s, path, k - 1);
      assert path[k - 1 + 1] in Dependencies(graph, path[k - 1]);
    }
  }

  /** A closed set of reached targets is the least closed set, and holds every reached target. */
  lemma ReachedAndClosedIsLeast(
    graph: Graph, roots: seq<string>, reached: set<string>, other: set<string>, target: string)
    requires Closed(graph, roots, reached) && forall t :: t in reached ==> Reaches(graph, roots, t)
    ensures target in reached <==> Reaches(graph, roots, target)
    ensures Closed(graph, roots, other) ==> reached <= other
  {
    if Reaches(graph, roots, target) {
      var path :| Path(graph, roots, path, target);
      ClosedSetsHoldPaths(graph, roots, reached, path, |path| - 1);
    }
    if Closed(graph, roots, other) {
      forall t | t in reached ensures t in other {
        var path :| Path(graph, roots, path, t);
        ClosedSetsHoldPaths(graph, roots, other, path, |path| - 1);
      }
    }
  }

  // -- The worklist ---------------------------------------------------------

  /** Every name the search can meet. */
  function Universe(graph: Graph, roots: seq<string>): set<string> {
    (set r | r in roots) + (set t, d | t in graph && d in graph[t] :: d)
  }

  lemma ReachedIsInUniverse(graph: Graph, roots: seq<string>, target: string)
    requires Reaches(graph, roots, target)
    ensures target in Universe(graph, roots)
  {
    var path :| Path(graph, roots, path, target);
    var k := |path| - 1;
    if k > 0 {
      assert path[k - 1 + 1] in Dependencies(graph, path[k - 1]);
    }
  }

  /** Whatever a reached target still owes is on the list. */
  ghost predicate Owed(graph: Graph, reachable: set<string>, all: set<string>) {
    forall t, d :: t in reachable && d in Dependencies(graph, t) ==> d in all
  }

  ghost predicate AllReached(graph: Graph, roots: seq<string>, s: set<string>) {
    forall t :: t in s ==> Reaches(graph, roots, t)
  }

  /** A popped target that was met before leaves everything met or pending as it was. */
  lemma PoppedAgain(reachable: set<string>, pending: seq<string>, rest: seq<string>, target: string)
    requires pending == rest + [target] && target in reachable
    ensures reachable + SetOf(pending) == reachable + SetOf(rest)
  {
  }

  /** A new one moves across, and its dependencies join the list. */
  lemma PoppedNew(reachable: set<string>, pending: seq<string>, rest: seq<string>, target: string, more: seq<string>)
    requires pending == rest + [target]
    ensures target in reachable + SetOf(pending)
    ensures reachable + {target} + SetOf(rest + more) == reachable + SetOf(pending) + SetOf(more)
  {
    assert target == pending[|pending| - 1];
    assert SetOf(pending) == SetOf(rest) + {target};
    assert SetOf(rest + more) == SetOf(rest) + SetOf(more);
  }

  /** `list.pop` */
  method Pop(pending: seq<string>) returns (target: string, rest: seq<string>)
    requires pending != []
    ensures pending == rest + [target]
  {
    target, rest := pending[|pending| - 1], pending[..|pending| - 1];
  }

  lemma NothingOwed(graph: Graph, roots: seq<string>, reachable: set<string>, all: set<string>)
    requires all == reachable + SetOf([]) && SetOf(roots) <= all && Owed(graph, reachable, all)
    ensures Closed(graph, roots, reachable) && all == reachable
  {
    assert SetOf<string>([]) == {};
    forall r | r in roots ensures r in reachable {
      assert r in SetOf(roots);
    }
  }

  lemma ExpandedOnce(expanded: seq<string>, reachable: set<string>, target: string)
    requires NoRepeat(expanded) && SetOf(expanded) == reachable && target !in reachable
    ensures NoRepeat(expanded + [target]) && SetOf(expanded + [target]) == reachable + {target}
  {
    assert forall k :: 0 <= k < |expanded| ==> expanded[k] in SetOf(expanded);
  }

  lemma Expanding(graph: Graph, roots: seq<string>, reachable: set<string>, all: set<string>, target: string)
    requires Owed(graph, reachable, all) && AllReached(graph, roots, all) && target in all
    ensures var grown := all + SetOf(Dependencies(graph, target));
            Owed(graph, reachable + {target}, grown) && AllReached(graph, roots, grown)
  {
    DependenciesAreReached(graph, roots, target);
  }

  lemma FewerLeft(universe: set<string>, reachable: set<string>, target: string)
    requires target in universe && target !in reachable
    ensures |universe - (reachable + {target})| < |universe - reachable|
  {
    assert universe - reachable == (universe - (reachable + {target})) + {target};
  }

  /**
   `reachable_targets`: the reached targets, closed. `expanded` records the targets in the order
   their dependencies were read, each of them once.
   */
  method ReachableTargets(roots: seq<string>, graph: Graph)
    returns (reachable: set<string>, ghost expanded: seq<string>)
    ensures Closed(graph, roots, reachable)
    ensures forall t :: t in reachable ==> Reaches(graph, roots, t)
    ensures NoRepeat(expanded) && SetOf(expanded) == reachable
  {
    reachable, expanded := {}, [];
    var pending := roots;
    ghost var all := SetOf(roots);
    RootsAreReached(graph, roots);
    assert all == reachable + SetOf(pending);
    while pending != []
      invariant all == reachable + SetOf(pending)
      invariant SetOf(roots) <= all && Owed(graph, reachable, all) && AllReached(graph, roots, all)
      invariant NoRepeat(expanded) && SetOf(expanded) == reachable
      decreases |Universe(graph, roots) - reachable|, |pending|
    {
      var target, rest := Pop(pending);
      if target in reachable {
        PoppedAgain(reachable, pending, rest, target);
        pending := rest;
        continue;
      }
      var more := Dependencies(graph, target);
      PoppedNew(reachable, pending, rest, target, more);
      Expanding(graph, roots, reachable, all, target);
      ReachedIsInUniverse(graph, roots, target);
      FewerLeft(Universe(graph, roots), reachable, target);
      ExpandedOnce(expanded, reachable, target);
      reachable := reachable + {target};
      expanded := expanded + [target];
      pending := rest + more;
      all := all + SetOf(more);
    }
    NothingOwed(graph, roots, reachable, all);
  }
}
